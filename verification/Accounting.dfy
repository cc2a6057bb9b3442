/** What the ledger guarantees over any accepted sequence of fills. */
module Accounting {
  import opened Wrappers
  import opened Market
  import opened Orders
  import opened Ordering
  import opened Totals
  import opened Ledger

  /** Cash moved by the fills: sells bring in notional less fee, buys cost notional plus fee. */
  function CashFlow(fills: seq<Fill>): real {
    if fills == [] then 0.0
    else
      var last := fills[|fills| - 1];
      CashFlow(fills[..|fills| - 1])
      + (if last.side == Buy then -last.Notional() else last.Notional()) - last.fee
  }

  /** Quantity bought less quantity sold. */
  function NetQuantity(fills: seq<Fill>, symbol: Symbol): int {
    if fills == [] then 0
    else
      var last := fills[|fills| - 1];
      NetQuantity(fills[..|fills| - 1], symbol)
      + if last.symbol == symbol then Signed(last) else 0
  }

  function FillIds(fills: seq<Fill>): set<Uuid> {
    if fills == [] then {} else FillIds(fills[..|fills| - 1]) + {fills[|fills| - 1].fillId}
  }

  function Signed(fill: Fill): int {
    if fill.side == Buy then fill.quantity as int else -(fill.quantity as int)
  }

  lemma AppendFill(fills: seq<Fill>, fill: Fill, symbol: Symbol)
    ensures FillIds(fills + [fill]) == FillIds(fills) + {fill.fillId}
    ensures CashFlow(fills + [fill])
         == CashFlow(fills) + (if fill.side == Buy then -fill.Notional() else fill.Notional()) - fill.fee
    ensures NetQuantity(fills + [fill], symbol)
         == NetQuantity(fills, symbol) + if fill.symbol == symbol then Signed(fill) else 0
  {
    assert (fills + [fill])[..|fills|] == fills;
  }

  lemma Split(price: real, cost: real, a: int, b: int)
    ensures Worth(price - cost, a) == Worth(price, a) - Worth(cost, a)
    ensures Worth(cost, a - b) == Worth(cost, a) - Worth(cost, b)
    ensures Worth(cost, a + b) == Worth(cost, a) + Worth(cost, b)
  {
  }

  /** A buy raises the cost basis by what it costs and realizes nothing; a sell releases the
      average cost of what it sells, keeps the average, and realizes the rest. */
  lemma FillMovesCostBasis(l: Ledger, fill: Fill)
    requires l.ApplyFill(fill).Ok?
    requires forall s :: s in l.positions ==> l.positions[s].symbol == s
    ensures var after := l.ApplyFill(fill).value;
      && after.cash + after.CostBasis() - after.realizedPnl == l.cash + l.CostBasis() - l.realizedPnl
      && (fill.side == Buy ==>
           after.realizedPnl == l.realizedPnl
           && after.CostBasis() == l.CostBasis() + fill.Notional() + fill.fee)
      && (fill.side == Sell && after.PositionOf(fill.symbol).quantity != 0 ==>
           after.PositionOf(fill.symbol).averageCost == l.PositionOf(fill.symbol).averageCost)
      && after.PositionOf(fill.symbol).quantity == l.PositionOf(fill.symbol).quantity + Signed(fill)
      && (forall s :: s in after.positions ==> after.positions[s].symbol == s)
      && (forall s :: s != fill.symbol ==> after.PositionOf(s) == l.PositionOf(s))
  {
    var after := l.ApplyFill(fill).value;
    var current, next := l.PositionOf(fill.symbol), l.PositionAfter(fill);
    assert after.Costs() == l.Costs()[fill.symbol := next.CostBasis()];
    TotalUpdate(l.Costs(), fill.symbol, next.CostBasis());
    assert fill.symbol !in l.positions ==> current.CostBasis() == 0.0;
    Split(fill.price, current.averageCost, fill.quantity, 0);
    Split(0.0, current.averageCost, current.quantity, fill.quantity);
  }

  ghost predicate Explained(l: Ledger, initialCash: NonNeg, fills: seq<Fill>) {
    && l.initialCash == initialCash
    && l.fills == fills
    && l.fillIds == FillIds(fills)
    && l.cash == initialCash + CashFlow(fills)
    && l.cash + l.CostBasis() == initialCash + l.realizedPnl
    && (forall s :: s in l.positions ==> l.positions[s].symbol == s)
    && (forall s :: l.PositionOf(s).quantity == NetQuantity(fills, s))
  }

  lemma FillKeepsExplained(l: Ledger, initialCash: NonNeg, fills: seq<Fill>, fill: Fill)
    requires Explained(l, initialCash, fills) && l.ApplyFill(fill).Ok?
    ensures Explained(l.ApplyFill(fill).value, initialCash, fills + [fill])
  {
    var after := l.ApplyFill(fill).value;
    FillMovesCostBasis(l, fill);
    forall s
      ensures after.PositionOf(s).quantity == NetQuantity(fills + [fill], s)
    {
      AppendFill(fills, fill, s);
    }
    AppendFill(fills, fill, fill.symbol);
  }

  /** Cash and positions are exactly explained by the fills, and cash plus cost basis equals
      initial cash plus realized profit, after any accepted fill sequence. */
  lemma {:induction false} AccountingIdentity(initialCash: NonNeg, fills: seq<Fill>)
    requires Rebuild(initialCash, fills).Ok?
    ensures Explained(Rebuild(initialCash, fills).value, initialCash, fills)
  {
    if fills == [] {
      var l := EmptyLedger(initialCash);
      assert l.Costs() == map[];
    } else {
      var front, last := fills[..|fills| - 1], fills[|fills| - 1];
      AccountingIdentity(initialCash, front);
      FillKeepsExplained(Rebuild(initialCash, front).value, initialCash, front, last);
      assert fills == front + [last];
    }
  }

  /** Replaying the recorded fills succeeds and reproduces the whole ledger. */
  lemma ReplayReproduces(initialCash: NonNeg, fills: seq<Fill>)
    requires Rebuild(initialCash, fills).Ok?
    ensures var l := Rebuild(initialCash, fills).value;
      l.initialCash == initialCash && Rebuild(initialCash, l.fills) == Ok(l)
  {
    AccountingIdentity(initialCash, fills);
  }

  ghost function Marks(l: Ledger, keys: set<Symbol>, prices: map<Symbol, real>): map<Symbol, real> {
    map s | s in keys && s in l.positions && s in prices :: Worth(prices[s], l.positions[s].quantity)
  }

  ghost predicate Markable(positions: set<Symbol>, prices: map<Symbol, real>) {
    forall s :: s in positions ==> s in prices && 0.0 < prices[s]
  }

  lemma {:induction false} MarkedValueIsTotal(l: Ledger, held: set<Symbol>, prices: map<Symbol, real>)
    requires forall s :: s in held ==> s in l.positions
    requires forall i :: 0 <= i < |Ascending(held)| ==> Ascending(held)[i] in l.positions
    ensures Markable(held, prices) ==>
              l.MarkedValue(Ascending(held), prices) == Ok(Total(Marks(l, held, prices)))
    ensures !Markable(held, prices) ==> l.MarkedValue(Ascending(held), prices).Err?
    decreases held
  {
    if held == {} {
      assert Marks(l, held, prices) == map[];
    } else {
      var first := Least(held);
      var rest := held - {first};
      AscendingFirst(held, first);
      assert Ascending(held)[1..] == Ascending(rest);
      forall i | 0 <= i < |Ascending(rest)|
        ensures Ascending(rest)[i] in l.positions
      {
        assert Ascending(rest)[i] == Ascending(held)[i + 1];
      }
      MarkedValueIsTotal(l, rest, prices);
      if first in prices && 0.0 < prices[first] {
        MarksRemove(l, held, first, prices);
      }
    }
  }

  lemma MarksRemove(l: Ledger, held: set<Symbol>, first: Symbol, prices: map<Symbol, real>)
    requires first in held && first in l.positions && first in prices && 0.0 < prices[first]
    ensures Markable(held, prices) <==> Markable(held - {first}, prices)
    ensures Total(Marks(l, held, prices))
         == Worth(prices[first], l.positions[first].quantity) + Total(Marks(l, held - {first}, prices))
  {
    TotalRemove(Marks(l, held, prices), first);
    assert Marks(l, held, prices) - {first} == Marks(l, held - {first}, prices);
    if Markable(held - {first}, prices) {
      forall s | s in held
        ensures s in prices && 0.0 < prices[s]
      {
        assert s == first || s in held - {first};
      }
    }
  }

  lemma SnapshotMarks(l: Ledger, asof: Time, prices: map<Symbol, real>)
    ensures var marked := l.Snapshot(asof, prices);
      if Markable(l.Held(), prices) then
        && marked.Ok?
        && marked.value.marketValue == Total(Marks(l, l.Held(), prices))
        && marked.value.equity == l.cash + Total(Marks(l, l.Held(), prices))
      else marked.Err?
  {
    AscendingFacts(l.Held());
    MarkedValueIsTotal(l, l.Held(), prices);
  }

  ghost function Unrealized(l: Ledger, prices: map<Symbol, real>): real {
    Total(Gains(l, prices))
  }

  ghost function Gains(l: Ledger, prices: map<Symbol, real>): map<Symbol, real> {
    map s | s in l.Held() && s in prices ::
      Worth(prices[s] - l.positions[s].averageCost, l.positions[s].quantity)
  }

  lemma HeldCosts(l: Ledger)
    ensures Total(map s | s in l.Costs() && s in l.Held() :: l.Costs()[s]) == l.CostBasis()
  {
    forall s | s in l.Costs() && s !in l.Held()
      ensures l.Costs()[s] == 0.0
    {
      assert l.positions[s].quantity == 0;
    }
    TotalRestrict(l.Costs(), l.Held());
  }

  lemma MarksSplit(l: Ledger, prices: map<Symbol, real>)
    requires Markable(l.Held(), prices)
    ensures Total(Marks(l, l.Held(), prices)) == l.CostBasis() + Unrealized(l, prices)
  {
    var marks, gains := Marks(l, l.Held(), prices), Gains(l, prices);
    var costs := map s | s in l.Costs() && s in l.Held() :: l.Costs()[s];
    HeldCosts(l);
    forall s | s in costs
      ensures marks[s] == costs[s] + gains[s]
    {
      Split(prices[s], l.positions[s].averageCost, l.positions[s].quantity, 0);
    }
    forall s | s in l.Held()
      ensures s in gains && s in marks
    {
      assert s in prices;
    }
    assert gains.Keys == costs.Keys && marks.Keys == costs.Keys;
    TotalSum(costs, gains, marks);
  }

  /** Marked equity is initial cash plus realized profit plus the unrealized profit of what is
      held; the snapshot exists exactly when every held symbol has a positive mark. */
  lemma EquityIdentity(initialCash: NonNeg, fills: seq<Fill>, asof: Time, prices: map<Symbol, real>)
    requires Rebuild(initialCash, fills).Ok?
    ensures var l := Rebuild(initialCash, fills).value;
      && (l.Snapshot(asof, prices).Ok? <==> Markable(l.Held(), prices))
      && (Markable(l.Held(), prices) ==>
           l.Snapshot(asof, prices).value.equity == initialCash + l.realizedPnl + Unrealized(l, prices))
  {
    var l := Rebuild(initialCash, fills).value;
    AccountingIdentity(initialCash, fills);
    SnapshotMarks(l, asof, prices);
    if Markable(l.Held(), prices) {
      MarksSplit(l, prices);
    }
  }

  /** Cash survives a fill exactly when the fill is a buy or brings in what its fee takes. */
  lemma CashAfterFill(l: Ledger, fill: Fill)
    requires 0.0 <= l.cash && l.ApplyFill(fill).Ok?
    ensures 0.0 <= l.ApplyFill(fill).value.cash <==> (fill.side == Buy || fill.fee <= l.cash + fill.Notional())
  {
  }

  /** A sell is accepted even when its fee exceeds everything it brings in. */
  lemma SellFeeCanOverdraw()
    ensures exists fills: seq<Fill> ::
      Rebuild(1.0, fills).Ok? && Rebuild(1.0, fills).value.cash < 0.0
  {
    var buy := Fill(Uuid(FillId, 1), Uuid(OrderId, 1), 7, Buy, 1, 1.0, 0.0, 0);
    var sell := Fill(Uuid(FillId, 2), Uuid(OrderId, 2), 7, Sell, 1, 1.0, 5.0, 1);
    var empty := EmptyLedger(1.0);
    assert Worth(1.0, 1) == 1.0;
    var bought := empty.ApplyFill(buy).value;
    assert [buy][..0] == [] && [buy, sell][..1] == [buy];
    assert Rebuild(1.0, [buy]) == Ok(bought);
    assert bought.positions[7].quantity == 1 && bought.cash == 0.0;
    assert Rebuild(1.0, [buy, sell]) == bought.ApplyFill(sell);
    assert Rebuild(1.0, [buy, sell]).value.cash == -4.0;
  }
}
