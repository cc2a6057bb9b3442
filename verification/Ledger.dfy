/** Fill-sourced accounting: cash, average-cost positions and realized profit. */
module Ledger {
  import opened Wrappers
  import opened Market
  import opened Orders
  import opened Ordering
  import opened Totals

  datatype PositionFields = PositionFields(symbol: Symbol, quantity: int, averageCost: real) {
    predicate Consistent() {
      0 <= quantity && 0.0 <= averageCost && (quantity == 0 ==> averageCost == 0.0)
    }

    function CostBasis(): real {
      Worth(averageCost, quantity)
    }
  }

  type Position = p: PositionFields | p.Consistent() witness PositionFields(0, 0, 0.0)

  datatype PortfolioSnapshot = PortfolioSnapshot(
    asofTime: Time, cash: real, marketValue: real, equity: real,
    realizedPnl: real, positions: seq<Position>)

  /** The cost per unit after a buy, fee included. */
  function AveragedCost(current: Position, fill: Fill): (cost: NonNeg)
    ensures Worth(cost, current.quantity + fill.quantity)
         == current.CostBasis() + fill.Notional() + fill.fee
  {
    var total := current.CostBasis() + fill.Notional() + fill.fee;
    ProductNonNeg(current.averageCost, current.quantity as real);
    ProductNonNeg(fill.price, fill.quantity as real);
    QuotientNonNeg(total, (current.quantity + fill.quantity) as real);
    total / (current.quantity + fill.quantity) as real
  }

  lemma ProductNonNeg(a: real, b: real)
    requires 0.0 <= a && 0.0 <= b
    ensures 0.0 <= a * b
  {
  }

  lemma QuotientNonNeg(a: real, b: real)
    requires 0.0 <= a && 0.0 < b
    ensures 0.0 <= a / b && a / b * b == a
  {
  }

  datatype Ledger = Ledger(
    initialCash: real, cash: real, realizedPnl: real, positions: map<Symbol, Position>,
    fills: seq<Fill>, fillIds: set<Uuid>, lastFillAt: Option<Time>)
  {
    function PositionOf(symbol: Symbol): Position {
      if symbol in positions then positions[symbol] else PositionFields(symbol, 0, 0.0)
    }

    function ValidateFill(fill: Fill): Result<(), BacktestError> {
      if fill.fillId in fillIds then Err(DuplicateFill)
      else if lastFillAt.Some? && fill.occurredAt < lastFillAt.value then Err(FillOutOfOrder)
      else if fill.side == Buy then
        if fill.Notional() + fill.fee > cash then Err(InsufficientCash) else Ok(())
      else if fill.symbol !in positions || fill.quantity > positions[fill.symbol].quantity then
        Err(InsufficientPosition)
      else Ok(())
    }

    function PositionAfter(fill: Fill): Position
      requires ValidateFill(fill).Ok?
    {
      var current := PositionOf(fill.symbol);
      if fill.side == Buy then
        PositionFields(fill.symbol, current.quantity + fill.quantity, AveragedCost(current, fill))
      else
        var remaining := current.quantity - fill.quantity;
        PositionFields(fill.symbol, remaining, if remaining != 0 then current.averageCost else 0.0)
    }

    function ApplyFill(fill: Fill): Result<Ledger, BacktestError> {
      var _ :- ValidateFill(fill);
      var current := PositionOf(fill.symbol);
      var cash' := if fill.side == Buy then cash - (fill.Notional() + fill.fee)
                   else cash + (fill.Notional() - fill.fee);
      var realized' := if fill.side == Buy then realizedPnl
                       else realizedPnl + (Worth(fill.price - current.averageCost, fill.quantity) - fill.fee);
      Ok(Ledger(initialCash, cash', realized', positions[fill.symbol := PositionAfter(fill)],
                fills + [fill], fillIds + {fill.fillId}, Some(fill.occurredAt)))
    }

    ghost function Held(): set<Symbol> {
      set s | s in positions && positions[s].quantity != 0
    }

    /** Marking the held symbols in order: the value, or the first mark that fails. */
    function MarkedValue(symbols: seq<Symbol>, prices: map<Symbol, real>): Result<real, BacktestError>
      requires forall i :: 0 <= i < |symbols| ==> symbols[i] in positions
    {
      if symbols == [] then Ok(0.0)
      else
        var first := symbols[0];
        if first !in prices then Err(MissingMark)
        else if prices[first] <= 0.0 then Err(NonPositiveMark)
        else
          var rest :- MarkedValue(symbols[1..], prices);
          Ok(Worth(prices[first], positions[first].quantity) + rest)
    }

    ghost function Snapshot(asof: Time, prices: map<Symbol, real>): Result<PortfolioSnapshot, BacktestError> {
      var symbols := Ascending(Held());
      AscendingFacts(Held());
      var marketValue :- MarkedValue(symbols, prices);
      Ok(PortfolioSnapshot(asof, cash, marketValue, cash + marketValue, realizedPnl, PositionsAt(symbols)))
    }

    ghost function PositionsAt(symbols: seq<Symbol>): seq<Position>
      requires forall i :: 0 <= i < |symbols| ==> symbols[i] in positions
    {
      if symbols == [] then [] else [positions[symbols[0]]] + PositionsAt(symbols[1..])
    }

    ghost function CostBasis(): real {
      Total(Costs())
    }

    ghost function Costs(): map<Symbol, real> {
      map s | s in positions :: positions[s].CostBasis()
    }
  }

  function EmptyLedger(initialCash: NonNeg): Ledger {
    Ledger(initialCash, initialCash, 0.0, map[], [], {}, None)
  }

  /** Replaying recorded fills: a fresh ledger with every fill applied in order. */
  function Rebuild(initialCash: NonNeg, fills: seq<Fill>): Result<Ledger, BacktestError> {
    if fills == [] then Ok(EmptyLedger(initialCash))
    else
      var before :- Rebuild(initialCash, fills[..|fills| - 1]);
      before.ApplyFill(fills[|fills| - 1])
  }

  class PortfolioLedger {
    const initialCash: real
    var cash: real
    var realizedPnl: real
    var positions: map<Symbol, Position>
    var fills: seq<Fill>
    var fillIds: set<Uuid>
    var lastFillAt: Option<Time>

    ghost function State(): Ledger
      reads this
    {
      Ledger(initialCash, cash, realizedPnl, positions, fills, fillIds, lastFillAt)
    }

    constructor (initialCash: NonNeg)
      ensures State() == EmptyLedger(initialCash)
    {
      this.initialCash, cash, realizedPnl := initialCash, initialCash, 0.0;
      positions, fills, fillIds, lastFillAt := map[], [], {}, None;
    }

    function PositionOf(symbol: Symbol): (p: Position)
      reads this
      ensures p == State().PositionOf(symbol)
    {
      if symbol in positions then positions[symbol] else PositionFields(symbol, 0, 0.0)
    }

    method ValidateFill(fill: Fill) returns (r: Result<(), BacktestError>)
      ensures r == State().ValidateFill(fill)
    {
      if fill.fillId in fillIds {
        return Err(DuplicateFill);
      }
      if lastFillAt.Some? && fill.occurredAt < lastFillAt.value {
        return Err(FillOutOfOrder);
      }
      if fill.side == Buy {
        var requiredCash := fill.Notional() + fill.fee;
        if requiredCash > cash {
          return Err(InsufficientCash);
        }
      } else if fill.symbol !in positions || fill.quantity > positions[fill.symbol].quantity {
        return Err(InsufficientPosition);
      }
      return Ok(());
    }

    method ApplyFill(fill: Fill) returns (r: Result<(), BacktestError>)
      modifies this
      ensures r.Ok? ==> old(State()).ApplyFill(fill) == Ok(State())
      ensures r.Err? ==> State() == old(State()) && old(State()).ApplyFill(fill) == Err(r.error)
    {
      var validated := ValidateFill(fill);
      if validated.Err? {
        return validated;
      }
      var current := PositionOf(fill.symbol);
      if fill.side == Buy {
        positions := positions[fill.symbol :=
          PositionFields(fill.symbol, current.quantity + fill.quantity, AveragedCost(current, fill))];
        cash := cash - (fill.Notional() + fill.fee);
      } else {
        cash := cash + (fill.Notional() - fill.fee);
        realizedPnl := realizedPnl + (Worth(fill.price - current.averageCost, fill.quantity) - fill.fee);
        var remaining := current.quantity - fill.quantity;
        positions := positions[fill.symbol :=
          PositionFields(fill.symbol, remaining, if remaining != 0 then current.averageCost else 0.0)];
      }
      fills := fills + [fill];
      fillIds := fillIds + {fill.fillId};
      lastFillAt := Some(fill.occurredAt);
      assert cash == old(State()).ApplyFill(fill).value.cash;
      assert realizedPnl == old(State()).ApplyFill(fill).value.realizedPnl;
      assert positions == old(State()).ApplyFill(fill).value.positions;
      return Ok(());
    }

    method Mark(symbols: seq<Symbol>, prices: map<Symbol, real>)
        returns (r: Result<(real, seq<Position>), BacktestError>)
      requires forall i :: 0 <= i < |symbols| ==> symbols[i] in positions
      ensures r.Ok? ==> State().MarkedValue(symbols, prices) == Ok(r.value.0)
      ensures r.Ok? ==> r.value.1 == State().PositionsAt(symbols)
      ensures r.Err? ==> State().MarkedValue(symbols, prices) == Err(r.error)
    {
      ghost var l := State();
      var active: seq<Position>, marketValue := [], 0.0;
      for i := 0 to |symbols|
        invariant l.PositionsAt(symbols) == active + l.PositionsAt(symbols[i..])
        invariant var rest := l.MarkedValue(symbols[i..], prices);
          l.MarkedValue(symbols, prices) == if rest.Ok? then Ok(marketValue + rest.value) else rest
      {
        var symbol := symbols[i];
        assert symbols[i..][1..] == symbols[i + 1..];
        if symbol !in prices {
          return Err(MissingMark);
        }
        if prices[symbol] <= 0.0 {
          return Err(NonPositiveMark);
        }
        marketValue := marketValue + Worth(prices[symbol], positions[symbol].quantity);
        active := active + [positions[symbol]];
      }
      return Ok((marketValue, active));
    }

    method Snapshot(asof: Time, prices: map<Symbol, real>) returns (r: Result<PortfolioSnapshot, BacktestError>)
      ensures r == State().Snapshot(asof, prices)
    {
      var held := set s | s in positions && positions[s].quantity != 0;
      var symbols := Sorted(held);
      assert held == State().Held();
      AscendingFacts(held);
      var marked := Mark(symbols, prices);
      if marked.Err? {
        return Err(marked.error);
      }
      var (marketValue, active) := marked.value;
      return Ok(PortfolioSnapshot(asof, cash, marketValue, cash + marketValue, realizedPnl, active));
    }

    static method Rebuilt(initialCash: NonNeg, fills: seq<Fill>) returns (r: Result<PortfolioLedger, BacktestError>)
      ensures r.Ok? ==> fresh(r.value) && Rebuild(initialCash, fills) == Ok(r.value.State())
      ensures r.Err? ==> Rebuild(initialCash, fills) == Err(r.error)
    {
      var ledger := new PortfolioLedger(initialCash);
      for i := 0 to |fills|
        invariant fresh(ledger) && Rebuild(initialCash, fills[..i]) == Ok(ledger.State())
      {
        assert fills[..i + 1][..i] == fills[..i];
        var applied := ledger.ApplyFill(fills[i]);
        if applied.Err? {
          ReplayFailurePersists(initialCash, fills, i + 1);
          return Err(applied.error);
        }
      }
      assert fills[..|fills|] == fills;
      return Ok(ledger);
    }
  }

  lemma {:induction false} ReplayFailurePersists(initialCash: NonNeg, fills: seq<Fill>, n: nat)
    requires n <= |fills| && Rebuild(initialCash, fills[..n]).Err?
    ensures Rebuild(initialCash, fills) == Rebuild(initialCash, fills[..n])
    decreases |fills|
  {
    if n == |fills| {
      assert fills[..n] == fills;
    } else {
      assert fills[..|fills| - 1][..n] == fills[..n];
      ReplayFailurePersists(initialCash, fills[..|fills| - 1], n);
    }
  }
}
