/** Backtest orders, fills, and the order book that tracks how much of each order is filled. */
module Orders {
  import opened Wrappers
  import opened Market

  datatype OrderStatus = Open | PartiallyFilled | Filled | Cancelled

  datatype OrderRequest = OrderRequest(symbol: Symbol, side: Side, quantity: Pos)

  function StatusFor(filled: int, quantity: int): OrderStatus {
    if filled == quantity then Filled else if filled > 0 then PartiallyFilled else Open
  }

  datatype OrderFields = OrderFields(
    orderId: Uuid, symbol: Symbol, side: Side, quantity: Pos,
    submittedAt: Time, filled: int, status: OrderStatus)
  {
    predicate Consistent() {
      0 <= filled <= quantity && (status == Cancelled || status == StatusFor(filled, quantity))
    }

    function Remaining(): int {
      quantity - filled
    }

    predicate Active() {
      status == Open || status == PartiallyFilled
    }
  }

  /** An order as its constructor leaves it: the status agrees with the filled quantity. */
  type BacktestOrder = o: OrderFields | o.Consistent()
    witness OrderFields(Uuid(OrderId, 0), 0, Buy, 1, 0, 0, Open)

  function NewOrder(id: Uuid, request: OrderRequest, submittedAt: Time): BacktestOrder {
    OrderFields(id, request.symbol, request.side, request.quantity, submittedAt, 0, Open)
  }

  datatype Fill = Fill(
    fillId: Uuid, orderId: Uuid, symbol: Symbol, side: Side,
    quantity: Pos, price: Price, fee: NonNeg, occurredAt: Time)
  {
    function Notional(): real {
      Worth(price, quantity)
    }
  }

  /** The value of an order book: `ids` is the insertion order of the `orders` dictionary. */
  datatype Book = Book(ids: seq<Uuid>, orders: map<Uuid, BacktestOrder>, fillIds: set<Uuid>) {

    ghost predicate Valid() {
      && (forall i, j :: 0 <= i < j < |ids| ==> ids[i] != ids[j])
      && (forall id :: id in ids <==> id in orders)
      && (forall id :: id in orders ==> orders[id].orderId == id)
    }

    function Submit(order: BacktestOrder): Result<Book, BacktestError> {
      if order.orderId in orders then Err(DuplicateOrder)
      else Ok(Book(ids + [order.orderId], orders[order.orderId := order], fillIds))
    }

    predicate IsEligible(id: Uuid, at: Time) {
      id in orders && orders[id].Active() && orders[id].submittedAt < at
    }

    /** Working orders submitted strictly before `at`, in submission order, among the first `n`. */
    function EligibleAmong(n: nat, at: Time): seq<BacktestOrder>
      requires n <= |ids|
    {
      if n == 0 then []
      else
        EligibleAmong(n - 1, at)
        + if IsEligible(ids[n - 1], at) then [orders[ids[n - 1]]] else []
    }

    function Eligible(at: Time): seq<BacktestOrder> {
      EligibleAmong(|ids|, at)
    }

    function ValidateFill(fill: Fill): Result<BacktestOrder, BacktestError> {
      if fill.fillId in fillIds then Err(DuplicateFill)
      else if fill.orderId !in orders then Err(UnknownOrder)
      else
        var order := orders[fill.orderId];
        if !order.Active() then Err(TerminalOrder)
        else if fill.symbol != order.symbol || fill.side != order.side then Err(IdentityMismatch)
        else if fill.quantity > order.Remaining() then Err(Overfill)
        else if fill.occurredAt <= order.submittedAt then Err(NotAfterSubmission)
        else Ok(order)
    }

    function ApplyFill(fill: Fill): Result<Book, BacktestError> {
      var order :- ValidateFill(fill);
      var filled := order.filled + fill.quantity;
      var status := if filled == order.quantity then Filled else PartiallyFilled;
      var updated: BacktestOrder := order.(filled := filled, status := status);
      Ok(Book(ids, orders[fill.orderId := updated], fillIds + {fill.fillId}))
    }

    function Cancel(id: Uuid): Result<Book, BacktestError> {
      if id !in orders then Err(UnknownOrder)
      else if !orders[id].Active() then Err(TerminalOrder)
      else
        var cancelled: BacktestOrder := orders[id].(status := Cancelled);
        Ok(Book(ids, orders[id := cancelled], fillIds))
    }
  }

  const EMPTY_BOOK := Book([], map[], {})

  /** `eligible_orders` is exactly the working orders submitted strictly earlier, each once. */
  lemma {:induction false} EligibleMeaning(book: Book, n: nat, at: Time)
    requires book.Valid() && n <= |book.ids|
    ensures forall o :: o in book.EligibleAmong(n, at) <==>
              exists i :: 0 <= i < n && book.IsEligible(book.ids[i], at) && o == book.orders[book.ids[i]]
    ensures forall i, j :: 0 <= i < j < |book.EligibleAmong(n, at)| ==>
              book.EligibleAmong(n, at)[i].orderId != book.EligibleAmong(n, at)[j].orderId
  {
    if n > 0 {
      EligibleMeaning(book, n - 1, at);
      var before := book.EligibleAmong(n - 1, at);
      forall i | 0 <= i < |before|
        ensures before[i].orderId != book.ids[n - 1]
      {
        assert before[i] in before;
      }
    }
  }

  /** An accepted fill advances one working order and leaves all others alone. */
  lemma FillAdvancesOneOrder(book: Book, fill: Fill)
    requires book.Valid() && book.ApplyFill(fill).Ok?
    ensures var after := book.ApplyFill(fill).value;
      && after.Valid()
      && after.ids == book.ids
      && after.fillIds == book.fillIds + {fill.fillId} && fill.fillId !in book.fillIds
      && fill.orderId in book.orders
      && after.orders[fill.orderId].filled == book.orders[fill.orderId].filled + fill.quantity
      && after.orders[fill.orderId].status != Cancelled
      && (forall id :: id in book.orders && id != fill.orderId ==> after.orders[id] == book.orders[id])
  {
  }

  class OrderBook {
    var ids: seq<Uuid>
    var orders: map<Uuid, BacktestOrder>
    var fillIds: set<Uuid>

    ghost function State(): Book
      reads this
    {
      Book(ids, orders, fillIds)
    }

    constructor ()
      ensures State() == EMPTY_BOOK
    {
      ids, orders, fillIds := [], map[], {};
    }

    method Submit(order: BacktestOrder) returns (r: Result<(), BacktestError>)
      modifies this
      ensures r.Ok? ==> old(State()).Submit(order) == Ok(State())
      ensures r.Err? ==> State() == old(State()) && old(State()).Submit(order) == Err(r.error)
    {
      if order.orderId in orders {
        return Err(DuplicateOrder);
      }
      ids := ids + [order.orderId];
      orders := orders[order.orderId := order];
      return Ok(());
    }

    method EligibleOrders(at: Time) returns (r: seq<BacktestOrder>)
      ensures r == State().Eligible(at)
    {
      r := [];
      for n := 0 to |ids|
        invariant r == State().EligibleAmong(n, at)
      {
        if ids[n] in orders {
          var order := orders[ids[n]];
          if order.Active() && order.submittedAt < at {
            r := r + [order];
          }
        }
      }
    }

    method ValidateFill(fill: Fill) returns (r: Result<BacktestOrder, BacktestError>)
      ensures r == State().ValidateFill(fill)
    {
      if fill.fillId in fillIds {
        return Err(DuplicateFill);
      }
      if fill.orderId !in orders {
        return Err(UnknownOrder);
      }
      var order := orders[fill.orderId];
      if !order.Active() {
        return Err(TerminalOrder);
      }
      if fill.symbol != order.symbol || fill.side != order.side {
        return Err(IdentityMismatch);
      }
      if fill.quantity > order.Remaining() {
        return Err(Overfill);
      }
      if fill.occurredAt <= order.submittedAt {
        return Err(NotAfterSubmission);
      }
      return Ok(order);
    }

    method ApplyFill(fill: Fill) returns (r: Result<BacktestOrder, BacktestError>)
      modifies this
      ensures r.Ok? ==> old(State()).ApplyFill(fill) == Ok(State())
      ensures r.Ok? ==> fill.orderId in orders && r.value == orders[fill.orderId]
      ensures r.Err? ==> State() == old(State()) && old(State()).ApplyFill(fill) == Err(r.error)
    {
      var validated := ValidateFill(fill);
      if validated.Err? {
        return Err(validated.error);
      }
      var order := validated.value;
      var filled := order.filled + fill.quantity;
      var status := if filled == order.quantity then Filled else PartiallyFilled;
      var updated: BacktestOrder := order.(filled := filled, status := status);
      orders := orders[fill.orderId := updated];
      fillIds := fillIds + {fill.fillId};
      return Ok(updated);
    }

    method Cancel(id: Uuid) returns (r: Result<BacktestOrder, BacktestError>)
      modifies this
      ensures r.Ok? ==> old(State()).Cancel(id) == Ok(State())
      ensures r.Ok? ==> id in orders && r.value == orders[id]
      ensures r.Err? ==> State() == old(State()) && old(State()).Cancel(id) == Err(r.error)
    {
      if id !in orders {
        return Err(UnknownOrder);
      }
      if !orders[id].Active() {
        return Err(TerminalOrder);
      }
      var cancelled: BacktestOrder := orders[id].(status := Cancelled);
      orders := orders[id := cancelled];
      return Ok(cancelled);
    }
  }
}
