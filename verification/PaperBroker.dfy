/** The paper broker: immediate execution against cash and positions, idempotent per key. */
module PaperBroker {
  import opened Wrappers
  import opened Market

  datatype BrokerOrderStatus = Submitted | PartiallyFilled | Filled | Cancelled | Rejected | Unknown

  /** A versioned hash of one logical order intent; hashing is taken to be injective. */
  datatype IdempotencyKey = IdempotencyKey(
    accountId: string, strategyId: string, tradeDate: Date, symbol: Symbol, side: Side, targetQuantity: int)

  /** A hash of the signal version and the idempotency key. */
  datatype ClientId = ClientId(signalVersion: string, key: IdempotencyKey)

  datatype BrokerOrderRequest = BrokerOrderRequest(
    clientOrderId: ClientId, key: IdempotencyKey, symbol: Symbol, side: Side, quantity: Pos)

  datatype BrokerOrder = BrokerOrder(
    id: nat, request: BrokerOrderRequest, status: BrokerOrderStatus, submittedAt: Time, filled: nat)

  datatype BrokerFill = BrokerFill(
    tradeId: nat, orderId: nat, symbol: Symbol, side: Side, quantity: Pos, price: Price, at: Time)

  datatype BrokerError = UnknownBrokerOrder | NotCancellable | NonPositiveBrokerPrice

  /** The shared state that survives agent restarts. Order ids are sequence numbers. */
  datatype Broker = Broker(
    cash: real, positions: map<Symbol, int>, prices: map<Symbol, Price>,
    orders: map<nat, BrokerOrder>, index: map<IdempotencyKey, nat>,
    fills: seq<BrokerFill>, sequence: nat)
  {
    function Position(symbol: Symbol): int {
      Held(positions, symbol)
    }

    /** The order filed under a key, as a repeated submission would return it. */
    function Find(key: IdempotencyKey): Option<BrokerOrder> {
      if key in index && index[key] in orders then Some(orders[index[key]]) else None
    }

    ghost predicate OrderIndexed(id: nat)
      requires id in orders
    {
      orders[id].id == id && orders[id].request.key in index && index[orders[id].request.key] == id
    }

    ghost predicate KeyIndexed(key: IdempotencyKey)
      requires key in index
    {
      index[key] in orders && orders[index[key]].request.key == key
    }

    /** One order per key and one key per order, numbered consecutively. */
    ghost predicate Indexed() {
      && (forall id :: id in orders <==> 1 <= id <= sequence)
      && (forall id {:trigger OrderIndexed(id)} :: id in orders ==> OrderIndexed(id))
      && (forall key {:trigger KeyIndexed(key)} :: key in index ==> KeyIndexed(key))
    }

    function Place(request: BrokerOrderRequest, status: BrokerOrderStatus, filled: nat, now: Time): Broker {
      this.(sequence := sequence + 1, index := index[request.key := sequence + 1],
            orders := orders[sequence + 1 := BrokerOrder(sequence + 1, request, status, now, filled)])
    }

    function Execute(request: BrokerOrderRequest, price: Price, now: Time): Broker {
      var notional := Worth(price, request.quantity);
      var signed := if request.side == Buy then request.quantity as int else -(request.quantity as int);
      this.(cash := if request.side == Buy then cash - notional else cash + notional,
            positions := positions[request.symbol := Position(request.symbol) + signed],
            fills := fills + [BrokerFill(sequence, sequence, request.symbol, request.side, request.quantity, price,
              now)])
    }

    /** Cash covers a buy, the position covers a sell. */
    predicate Covers(request: BrokerOrderRequest, price: Price) {
      if request.side == Buy then Worth(price, request.quantity) <= cash
      else request.quantity <= Position(request.symbol)
    }

    /** The state after `submit_order`. */
    function Submit(request: BrokerOrderRequest, now: Time): Broker {
      if request.key in index then this
      else if request.symbol !in prices then Place(request, Submitted, 0, now)
      else if !Covers(request, prices[request.symbol]) then Place(request, Rejected, 0, now)
      else Place(request, Filled, request.quantity, now).Execute(request, prices[request.symbol], now)
    }

    function CancelOrder(id: nat): Result<Broker, BrokerError> {
      if id !in orders then Err(UnknownBrokerOrder)
      else if orders[id].status != Submitted then Err(NotCancellable)
      else Ok(this.(orders := orders[id := orders[id].(status := Cancelled)]))
    }

    function SetPrice(symbol: Symbol, price: real): Result<Broker, BrokerError> {
      if price <= 0.0 then Err(NonPositiveBrokerPrice) else Ok(this.(prices := prices[symbol := price]))
    }
  }

  function SignedQuantity(fill: BrokerFill, symbol: Symbol): int {
    if fill.symbol != symbol then 0
    else if fill.side == Buy then fill.quantity as int else -(fill.quantity as int)
  }

  /** Cash the fills brought in. */
  function CashFlow(fills: seq<BrokerFill>): real {
    if fills == [] then 0.0
    else
      var last := fills[|fills| - 1];
      CashFlow(fills[..|fills| - 1])
      + if last.side == Buy then -Worth(last.price, last.quantity) else Worth(last.price, last.quantity)
  }

  function QuantityFlow(fills: seq<BrokerFill>, symbol: Symbol): int {
    if fills == [] then 0
    else QuantityFlow(fills[..|fills| - 1], symbol) + SignedQuantity(fills[|fills| - 1], symbol)
  }

  /** A fill is the complete execution of its own filled order, and has its number. */
  ghost predicate FillOfOrder(fill: BrokerFill, orders: map<nat, BrokerOrder>) {
    && fill.tradeId == fill.orderId && fill.orderId in orders
    && var order := orders[fill.orderId];
       && order.status == Filled && order.filled == order.request.quantity == fill.quantity
       && order.request.symbol == fill.symbol && order.request.side == fill.side
  }

  ghost predicate HasFill(id: nat, fills: seq<BrokerFill>) {
    exists i :: 0 <= i < |fills| && fills[i].orderId == id
  }

  ghost predicate FilledBefore(fills: seq<BrokerFill>, i: nat, j: nat)
    requires i < |fills| && j < |fills|
  {
    fills[i].orderId < fills[j].orderId
  }

  /** Fills and filled orders correspond one to one, in the order they happened. */
  ghost predicate Backed(fills: seq<BrokerFill>, orders: map<nat, BrokerOrder>) {
    && (forall i :: 0 <= i < |fills| ==> FillOfOrder(fills[i], orders))
    && (forall i, j {:trigger FilledBefore(fills, i, j)} :: 0 <= i < j < |fills| ==> FilledBefore(fills, i, j))
    && (forall id :: id in orders && orders[id].status == Filled ==> HasFill(id, fills))
    && (forall id :: id in orders && orders[id].status != Filled ==> orders[id].filled == 0)
  }

  function Held(positions: map<Symbol, int>, symbol: Symbol): int {
    if symbol in positions then positions[symbol] else 0
  }

  ghost predicate PositionBalanced(positions: map<Symbol, int>, fills: seq<BrokerFill>, opening: Broker,
      symbol: Symbol) {
    0 <= Held(positions, symbol) == opening.Position(symbol) + QuantityFlow(fills, symbol)
  }

  /** Balances are the opening balances plus the fills, and none is negative. */
  ghost predicate Balanced(cash: real, positions: map<Symbol, int>, fills: seq<BrokerFill>, opening: Broker) {
    && 0.0 <= cash == opening.cash + CashFlow(fills)
    && forall s :: PositionBalanced(positions, fills, opening, s)
  }

  /** The broker's index, its fills and its balances all agree. */
  ghost predicate Sound(b: Broker, opening: Broker) {
    b.Indexed() && Backed(b.fills, b.orders) && Balanced(b.cash, b.positions, b.fills, opening)
  }

  /** A broker that has not traded yet. */
  ghost predicate Opening(b: Broker) {
    && 0.0 <= b.cash && (forall s :: 0 <= b.Position(s))
    && b.orders == map[] && b.index == map[] && b.fills == [] && b.sequence == 0
  }

  lemma OpeningSound(b: Broker)
    requires Opening(b)
    ensures Sound(b, b)
  {
    forall s
      ensures PositionBalanced(b.positions, b.fills, b, s)
    {
      assert 0 <= b.Position(s);
    }
  }

  lemma FlowAppend(fills: seq<BrokerFill>, fill: BrokerFill, symbol: Symbol)
    ensures CashFlow(fills + [fill]) == CashFlow(fills)
      + if fill.side == Buy then -Worth(fill.price, fill.quantity) else Worth(fill.price, fill.quantity)
    ensures QuantityFlow(fills + [fill], symbol) == QuantityFlow(fills, symbol) + SignedQuantity(fill, symbol)
  {
    assert (fills + [fill])[..|fills|] == fills;
  }

  lemma PlaceIndexed(b: Broker, request: BrokerOrderRequest, status: BrokerOrderStatus, filled: nat, now: Time)
    requires b.Indexed() && request.key !in b.index
    ensures b.Place(request, status, filled, now).Indexed()
  {
    var after := b.Place(request, status, filled, now);
    forall id | id in after.orders
      ensures after.OrderIndexed(id)
    {
      assert id in b.orders ==> b.OrderIndexed(id);
    }
    forall key | key in after.index
      ensures after.KeyIndexed(key)
    {
      assert key in b.index ==> b.KeyIndexed(key);
    }
  }

  lemma ExecuteIndexed(b: Broker, request: BrokerOrderRequest, price: Price, now: Time)
    requires b.Indexed()
    ensures b.Execute(request, price, now).Indexed()
  {
    var after := b.Execute(request, price, now);
    forall id | id in after.orders
      ensures after.OrderIndexed(id)
    {
      assert b.OrderIndexed(id);
    }
    forall key | key in after.index
      ensures after.KeyIndexed(key)
    {
      assert b.KeyIndexed(key);
    }
  }

  lemma SubmitIndexed(b: Broker, request: BrokerOrderRequest, now: Time)
    requires b.Indexed()
    ensures b.Submit(request, now).Indexed()
    ensures request.key in b.Submit(request, now).index && b.Submit(request, now).KeyIndexed(request.key)
  {
    var after := b.Submit(request, now);
    if request.key !in b.index {
      PlaceIndexed(b, request, Submitted, 0, now);
      PlaceIndexed(b, request, Rejected, 0, now);
      PlaceIndexed(b, request, Filled, request.quantity, now);
      if request.symbol in b.prices {
        ExecuteIndexed(b.Place(request, Filled, request.quantity, now), request, b.prices[request.symbol], now);
      }
    }
    assert after.KeyIndexed(request.key);
  }

  /** What a submission leaves behind for its key, and that it leaves every other order alone. */
  ghost predicate Extends(after: Broker, b: Broker, request: BrokerOrderRequest)
    requires b.Indexed() && after.Indexed()
  {
    && (if request.key in b.index then after == b
        else
          && after.index == b.index[request.key := b.sequence + 1]
          && after.orders.Keys == b.orders.Keys + {b.sequence + 1})
    && (request.key !in b.index ==> after.orders[b.sequence + 1].request == request)
    && after.Find(request.key).Some?
    && (forall id :: id in b.orders ==> id in after.orders && after.orders[id] == b.orders[id])
  }

  lemma SubmitExtends(b: Broker, request: BrokerOrderRequest, now: Time)
    requires b.Indexed()
    ensures b.Submit(request, now).Indexed() && Extends(b.Submit(request, now), b, request)
  {
    SubmitIndexed(b, request, now);
  }

  /** A new or changed order that is not filled leaves the correspondence alone. */
  lemma BackedUnfilled(fills: seq<BrokerFill>, orders: map<nat, BrokerOrder>, id: nat, order: BrokerOrder)
    requires Backed(fills, orders) && order.status != Filled && order.filled == 0
    requires id in orders ==> orders[id].status != Filled
    ensures Backed(fills, orders[id := order])
  {
    forall i | 0 <= i < |fills|
      ensures FillOfOrder(fills[i], orders[id := order])
    {
      assert FillOfOrder(fills[i], orders);
    }
  }

  /** A new filled order comes with its fill. */
  lemma BackedFilled(fills: seq<BrokerFill>, orders: map<nat, BrokerOrder>, id: nat, order: BrokerOrder,
      fill: BrokerFill)
    requires Backed(fills, orders) && (forall other :: other in orders ==> other < id)
    requires FillOfOrder(fill, map[id := order])
    ensures Backed(fills + [fill], orders[id := order])
  {
    var after, orders' := fills + [fill], orders[id := order];
    forall i | 0 <= i < |after|
      ensures FillOfOrder(after[i], orders')
      ensures i < |fills| ==> after[i].orderId < id
    {
      assert i < |fills| ==> FillOfOrder(fills[i], orders);
    }
    forall i, j | 0 <= i < j < |after|
      ensures FilledBefore(after, i, j)
    {
      assert j < |fills| ==> FilledBefore(fills, i, j);
    }
    forall x | x in orders' && orders'[x].status == Filled
      ensures HasFill(x, after)
    {
      if x == id {
        assert after[|fills|].orderId == x;
      } else {
        assert HasFill(x, fills);
        var i :| 0 <= i < |fills| && fills[i].orderId == x;
        assert after[i].orderId == x;
      }
    }
  }

  lemma BalancedFill(b: Broker, opening: Broker, request: BrokerOrderRequest, price: Price, fill: BrokerFill)
    requires Balanced(b.cash, b.positions, b.fills, opening) && b.Covers(request, price)
    requires fill.symbol == request.symbol && fill.side == request.side && fill.quantity == request.quantity
      && fill.price == price
    ensures var after := b.Execute(request, price, fill.at);
      Balanced(after.cash, after.positions, b.fills + [fill], opening)
  {
    var after := b.Execute(request, price, fill.at);
    forall s
      ensures PositionBalanced(after.positions, b.fills + [fill], opening, s)
    {
      FlowAppend(b.fills, fill, s);
      assert PositionBalanced(b.positions, b.fills, opening, s);
    }
    FlowAppend(b.fills, fill, request.symbol);
    WorthPositive(price, request.quantity);
  }

  lemma ExecuteBacked(b: Broker, request: BrokerOrderRequest, price: Price, now: Time)
    requires b.Indexed() && Backed(b.fills, b.orders)
    ensures var after := b.Place(request, Filled, request.quantity, now).Execute(request, price, now);
      Backed(after.fills, after.orders)
  {
    var id := b.sequence + 1;
    var fill := BrokerFill(id, id, request.symbol, request.side, request.quantity, price, now);
    BackedFilled(b.fills, b.orders, id, BrokerOrder(id, request, Filled, now, request.quantity), fill);
  }

  lemma ExecuteBalanced(b: Broker, opening: Broker, request: BrokerOrderRequest, price: Price, now: Time)
    requires Balanced(b.cash, b.positions, b.fills, opening) && b.Covers(request, price)
    ensures var after := b.Place(request, Filled, request.quantity, now).Execute(request, price, now);
      Balanced(after.cash, after.positions, after.fills, opening)
  {
    var id := b.sequence + 1;
    var fill := BrokerFill(id, id, request.symbol, request.side, request.quantity, price, now);
    BalancedFill(b, opening, request, price, fill);
  }

  lemma ExecuteSound(b: Broker, opening: Broker, request: BrokerOrderRequest, price: Price, now: Time)
    requires Sound(b, opening) && request.key !in b.index && b.Covers(request, price)
    ensures Sound(b.Place(request, Filled, request.quantity, now).Execute(request, price, now), opening)
  {
    PlaceIndexed(b, request, Filled, request.quantity, now);
    ExecuteIndexed(b.Place(request, Filled, request.quantity, now), request, price, now);
    ExecuteBacked(b, request, price, now);
    ExecuteBalanced(b, opening, request, price, now);
  }

  /** Submitting keeps the books sound, whatever is submitted. */
  lemma SubmitSound(b: Broker, opening: Broker, request: BrokerOrderRequest, now: Time)
    requires Sound(b, opening)
    ensures Sound(b.Submit(request, now), opening)
    ensures request.key in b.Submit(request, now).index
  {
    if request.key !in b.index {
      if request.symbol !in b.prices {
        PlaceIndexed(b, request, Submitted, 0, now);
        BackedUnfilled(b.fills, b.orders, b.sequence + 1, BrokerOrder(b.sequence + 1, request, Submitted, now, 0));
      } else if !b.Covers(request, b.prices[request.symbol]) {
        PlaceIndexed(b, request, Rejected, 0, now);
        BackedUnfilled(b.fills, b.orders, b.sequence + 1, BrokerOrder(b.sequence + 1, request, Rejected, now, 0));
      } else {
        ExecuteSound(b, opening, request, b.prices[request.symbol], now);
      }
    }
  }

  lemma CancelIndexed(b: Broker, id: nat)
    requires b.Indexed() && b.CancelOrder(id).Ok?
    ensures b.CancelOrder(id).value.Indexed()
  {
    var after := b.CancelOrder(id).value;
    forall x | x in after.orders
      ensures after.OrderIndexed(x)
    {
      assert b.OrderIndexed(x);
    }
    forall key | key in after.index
      ensures after.KeyIndexed(key)
    {
      assert b.KeyIndexed(key);
    }
  }

  lemma PriceIndexed(b: Broker, symbol: Symbol, price: Price)
    requires b.Indexed()
    ensures b.(prices := b.prices[symbol := price]).Indexed()
  {
    var after := b.(prices := b.prices[symbol := price]);
    forall x | x in after.orders
      ensures after.OrderIndexed(x)
    {
      assert b.OrderIndexed(x);
    }
    forall key | key in after.index
      ensures after.KeyIndexed(key)
    {
      assert b.KeyIndexed(key);
    }
  }

  lemma CancelSound(b: Broker, opening: Broker, id: nat)
    requires Sound(b, opening) && b.CancelOrder(id).Ok?
    ensures Sound(b.CancelOrder(id).value, opening)
  {
    CancelIndexed(b, id);
    BackedUnfilled(b.fills, b.orders, id, b.orders[id].(status := Cancelled));
  }

  /** No key ever has two orders or two fills. */
  lemma AtMostOncePerKey(b: Broker, opening: Broker)
    requires Sound(b, opening)
    ensures forall x, y :: x in b.orders && y in b.orders && b.orders[x].request.key == b.orders[y].request.key ==>
      x == y
    ensures forall i, j :: 0 <= i < j < |b.fills| ==>
      && b.fills[i].orderId in b.orders && b.fills[j].orderId in b.orders
      && b.orders[b.fills[i].orderId].request.key != b.orders[b.fills[j].orderId].request.key
  {
    forall x, y | x in b.orders && y in b.orders && b.orders[x].request.key == b.orders[y].request.key
      ensures x == y
    {
      assert b.OrderIndexed(x) && b.OrderIndexed(y);
    }
    forall i, j | 0 <= i < j < |b.fills|
      ensures b.fills[i].orderId in b.orders && b.fills[j].orderId in b.orders
      ensures b.orders[b.fills[i].orderId].request.key != b.orders[b.fills[j].orderId].request.key
    {
      assert FillOfOrder(b.fills[i], b.orders) && FillOfOrder(b.fills[j], b.orders);
      assert FilledBefore(b.fills, i, j);
      assert b.OrderIndexed(b.fills[i].orderId) && b.OrderIndexed(b.fills[j].orderId);
    }
  }

  class PaperBroker {
    var cash: real
    var positions: map<Symbol, int>
    var prices: map<Symbol, Price>
    var orders: map<nat, BrokerOrder>
    var idempotencyIndex: map<IdempotencyKey, nat>
    var fills: seq<BrokerFill>
    var sequence: nat

    function State(): Broker
      reads this
    {
      Broker(cash, positions, prices, orders, idempotencyIndex, fills, sequence)
    }

    /** Reconstruction over surviving state; the source refuses negative cash. */
    constructor (state: Broker)
      requires 0.0 <= state.cash
      ensures State() == state
    {
      cash, positions, prices, orders := state.cash, state.positions, state.prices, state.orders;
      idempotencyIndex, fills, sequence := state.index, state.fills, state.sequence;
    }

    method SetPrice(symbol: Symbol, price: real) returns (r: Result<(), BrokerError>)
      modifies this
      ensures r.Ok? ==> old(State()).SetPrice(symbol, price) == Ok(State())
      ensures r.Err? ==> State() == old(State()) && old(State()).SetPrice(symbol, price) == Err(r.error)
    {
      if price <= 0.0 {
        return Err(NonPositiveBrokerPrice);
      }
      prices := prices[symbol := price];
      return Ok(());
    }

    method SubmitOrder(request: BrokerOrderRequest, now: Time) returns (order: BrokerOrder)
      requires State().Indexed()
      modifies this
      ensures State() == old(State()).Submit(request, now)
      ensures State().Find(request.key) == Some(order)
    {
      if request.key in idempotencyIndex {
        assert State().KeyIndexed(request.key);
        return orders[idempotencyIndex[request.key]];
      }
      order := OpenOrder(request, now);
    }

    /** Files a new order, and executes or rejects it when the symbol has a price. */
    method OpenOrder(request: BrokerOrderRequest, now: Time) returns (order: BrokerOrder)
      requires request.key !in idempotencyIndex
      modifies this
      ensures State() == old(State()).Submit(request, now)
      ensures State().Find(request.key) == Some(order)
    {
      ghost var before := State();
      order := FileOrder(request, now);
      if request.symbol !in prices {
        return;
      }
      var price := prices[request.symbol];
      var notional := Worth(price, request.quantity);
      if (request.side == Buy && notional > cash)
        || (request.side == Sell && request.quantity > Held(positions, request.symbol)) {
        order := order.(status := Rejected);
        orders := orders[sequence := order];
      } else {
        order := Settle(order, price);
      }
      assert orders == before.orders[sequence := order];
    }

    /** Gives the order the next number and files it under its key. */
    method FileOrder(request: BrokerOrderRequest, now: Time) returns (order: BrokerOrder)
      modifies this
      ensures State() == old(State()).Place(request, Submitted, 0, now)
      ensures order == BrokerOrder(sequence, request, Submitted, now, 0)
    {
      sequence := sequence + 1;
      order := BrokerOrder(sequence, request, Submitted, now, 0);
      idempotencyIndex := idempotencyIndex[request.key := sequence];
      orders := orders[sequence := order];
    }

    /** Moves cash and position and records the fill of an accepted order. */
    method Settle(order: BrokerOrder, price: Price) returns (filled: BrokerOrder)
      requires order.id == sequence
      modifies this
      ensures filled == order.(status := Filled, filled := order.request.quantity)
      ensures State() == old(State()).(orders := old(orders)[sequence := filled]).Execute(order.request, price,
        order.submittedAt)
    {
      var request := order.request;
      var notional := Worth(price, request.quantity);
      if request.side == Buy {
        cash := cash - notional;
        positions := positions[request.symbol := Held(positions, request.symbol) + request.quantity];
      } else {
        cash := cash + notional;
        positions := positions[request.symbol := Held(positions, request.symbol) - request.quantity];
      }
      fills := fills + [BrokerFill(order.id, order.id, request.symbol, request.side, request.quantity, price,
        order.submittedAt)];
      filled := order.(status := Filled, filled := request.quantity);
      orders := orders[order.id := filled];
    }

    method CancelOrder(id: nat) returns (r: Result<BrokerOrder, BrokerError>)
      modifies this
      ensures r.Ok? ==> old(State()).CancelOrder(id) == Ok(State()) && id in orders && r.value == orders[id]
      ensures r.Err? ==> State() == old(State()) && old(State()).CancelOrder(id) == Err(r.error)
    {
      if id !in orders {
        return Err(UnknownBrokerOrder);
      }
      if orders[id].status != Submitted {
        return Err(NotCancellable);
      }
      orders := orders[id := orders[id].(status := Cancelled)];
      return Ok(orders[id]);
    }
  }
}
