/** The loops that evaluate expressions, row by row, proved equal to the meaning of expressions. */
module PanelLoops {
  import opened Wrappers
  import opened Dsl
  import opened Evaluator
  import LookBack
  import Ranking

  lemma CrossRows(k: Kernels, op: Operator, g: Grid, limit: Value, r: Grid)
    requires |r| == |g| && forall t :: 0 <= t < |g| ==> r[t] == CrossRow(k, op, g[t], limit)
    ensures r == CrossSectioned(k, op, g, limit)
  {
    var f := x => CrossRow(k, op, x, limit);
    EachRows(f, g, r);
  }

  lemma EachRows(f: Row -> Row, g: Grid, r: Grid)
    requires |r| == |g| && forall t :: 0 <= t < |g| ==> r[t] == f(g[t])
    ensures r == Each(f, g)
  {
    var each := Each(f, g);
    forall t | 0 <= t < |g|
      ensures r[t] == each[t]
    {
      assert each[t] == f(RowAt(g, t)) == f(g[t]);
    }
  }

  lemma NeutralRows(k: Kernels, a: Grid, b: Grid, r: Grid)
    requires |r| == |a| == |b| && forall t :: 0 <= t < |a| ==> r[t] == NeutralRow(k, a[t], b[t])
    ensures r == Neutralized(k, a, b)
  {
    var f := (x, y) => NeutralRow(k, x, y);
    ZippedRows(f, a, b, r);
  }

  lemma ZippedRows(f: (Row, Row) -> Row, a: Grid, b: Grid, r: Grid)
    requires |r| == |a| == |b| && forall t :: 0 <= t < |a| ==> r[t] == f(a[t], b[t])
    ensures r == Zipped(f, a, b)
  {
    var zipped := Zipped(f, a, b);
    forall t | 0 <= t < |a|
      ensures r[t] == zipped[t]
    {
      assert zipped[t] == f(RowAt(a, t), RowAt(b, t)) == f(a[t], b[t]);
    }
  }

  method Shift(values: Grid, periods: nat, width: nat) returns (r: Grid)
    ensures r == Shifted(values, periods, width)
  {
    var result := new Row[|values|](_ => NanRow(width));
    if periods < |values| {
      for t := periods to |values|
        invariant forall s :: 0 <= s < t && s < |values| ==> result[s] == Shifted(values, periods, width)[s]
        invariant forall s :: t <= s < |values| ==> result[s] == NanRow(width)
      {
        result[t] := values[t - periods];
      }
    }
    r := result[..];
  }

  lemma TrailingAt(f: Grid -> Row, g: Grid, window: nat, width: nat, t: nat)
    requires t < |g|
    ensures Trailing(f, g, window, width)[t] == if t < window - 1 then NanRow(width) else f(Window(g, t, window))
  {
  }

  lemma TrailingPairAt(f: (Grid, Grid) -> Row, a: Grid, b: Grid, window: nat, width: nat, t: nat)
    requires t < |a| == |b|
    ensures TrailingPair(f, a, b, window, width)[t]
      == if t < window - 1 then NanRow(width) else f(Window(a, t, window), Window(b, t, window))
  {
  }

  /** One row per complete window; the rows before the first one stay NaN. */
  method OverWindows(f: Grid -> Row, values: Grid, window: nat, width: nat) returns (r: Grid)
    requires 0 < window
    ensures r == Trailing(f, values, window, width)
  {
    ghost var spec := Trailing(f, values, window, width);
    var result := new Row[|values|](_ => NanRow(width));
    var end := window - 1;
    while end < |values|
      invariant window - 1 <= end
      invariant forall t :: window - 1 <= t < end && t < |values| ==> result[t] == spec[t]
      invariant forall t :: 0 <= t < |values| && (t < window - 1 || end <= t) ==> result[t] == NanRow(width)
    {
      var sample := values[end - window + 1..end + 1];
      assert sample == Window(values, end, window);
      TrailingAt(f, values, window, width, end);
      result[end] := f(sample);
      end := end + 1;
    }
    forall t | 0 <= t < |values| && t < window - 1
      ensures spec[t] == NanRow(width)
    {
      TrailingAt(f, values, window, width, t);
    }
    r := result[..];
  }

  method RollWindows(k: Kernels, values: Grid, window: nat, op: Operator, width: nat) returns (r: Grid)
    requires 0 < window
    ensures r == Rolled(k, op, values, window, width)
  {
    r := OverWindows(sample => RolledRow(k, op, sample, width), values, window, width);
  }

  method RollPairs(k: Kernels, left: Grid, right: Grid, window: nat, op: Operator, width: nat) returns (r: Grid)
    requires 0 < window && |left| == |right|
    ensures r == RolledPair(k, op, left, right, window, width)
  {
    ghost var f := (x, y) => PairRow(k, op, x, y, width);
    ghost var spec := TrailingPair(f, left, right, window, width);
    var result := new Row[|left|](_ => NanRow(width));
    var end := window - 1;
    while end < |left|
      invariant window - 1 <= end
      invariant forall t :: window - 1 <= t < end && t < |left| ==> result[t] == spec[t]
      invariant forall t :: 0 <= t < |left| && (t < window - 1 || end <= t) ==> result[t] == NanRow(width)
    {
      var x, y := left[end - window + 1..end + 1], right[end - window + 1..end + 1];
      var cells := PairCells(k, x, y, op, width);
      assert x == Window(left, end, window) && y == Window(right, end, window);
      assert spec[end] == f(x, y) by { TrailingPairAt(f, left, right, window, width, end); }
      result[end] := cells;
      end := end + 1;
    }
    forall t | 0 <= t < |left| && t < window - 1
      ensures spec[t] == NanRow(width)
    {
      TrailingPairAt(f, left, right, window, width, t);
    }
    r := result[..];
  }

  /** The inner loop over columns; an undefined correlation leaves its cell NaN. */
  method PairCells(k: Kernels, x: Grid, y: Grid, op: Operator, width: nat) returns (cells: Row)
    ensures cells == PairRow(k, op, x, y, width)
  {
    var result := new Value[width](_ => None);
    for column := 0 to width
      invariant forall c :: 0 <= c < column ==> result[c] == PairRow(k, op, x, y, width)[c]
      invariant forall c :: column <= c < width ==> result[c] == None
    {
      if op == Cov {
        result[column] := k.cov(Column(x, column), Column(y, column));
      } else if Positive(k.std(Column(x, column))) && Positive(k.std(Column(y, column))) {
        result[column] := k.corr(Column(x, column), Column(y, column));
      }
    }
    cells := result[..];
  }

  /** The transformed sample of one row: ranks by a double argsort, or standard scores. */
  method TransformSample(k: Kernels, op: Operator, sample: seq<real>, limit: Value) returns (transformed: seq<Value>)
    ensures |transformed| == |sample|
    ensures forall p :: 0 <= p < |sample| ==> transformed[p] == Transformed(k, op, sample, p, limit)
  {
    transformed := [];
    if op == RankCS {
      var order := Ranking.ArgSort(sample);
      var ranks := Ranking.ArgSort(Ranking.AsValues(order));
      for p := 0 to |sample|
        invariant |transformed| == p
        invariant forall q :: 0 <= q < p ==> transformed[q] == Transformed(k, op, sample, q, limit)
      {
        Ranking.DoubleArgSortRanks(sample, order, ranks, p);
        transformed := transformed + [Some((ranks[p] + 1) as real / |sample| as real)];
      }
    } else {
      for p := 0 to |sample|
        invariant |transformed| == p
        invariant forall q :: 0 <= q < p ==> transformed[q] == Transformed(k, op, sample, q, limit)
      {
        var z := Standardised(k, sample, p);
        transformed := transformed + [if op == Winsorize && z.Some? then Clipped(z.value, limit) else z];
      }
    }
  }

  method CrossSection(k: Kernels, values: Grid, op: Operator, limit: Value) returns (r: Grid)
    ensures r == CrossSectioned(k, op, values, limit)
  {
    var result: seq<Row> := [];
    for t := 0 to |values|
      invariant |result| == t && forall s :: 0 <= s < t ==> result[s] == CrossRow(k, op, values[s], limit)
    {
      var cells := CrossCells(k, op, values[t], limit);
      result := result + [cells];
    }
    r := result;
    CrossRows(k, op, values, limit, r);
  }

  method CrossCells(k: Kernels, op: Operator, row: Row, limit: Value) returns (cells: Row)
    ensures cells == CrossRow(k, op, row, limit)
  {
    var transformed := TransformSample(k, op, Present(row, row), limit);
    cells := ScatterBack(row, row, transformed);
    forall c | 0 <= c < |row|
      ensures cells[c] == CrossCell(k, op, row, c, limit)
    {
      if row[c].Some? {
        SlotInRange(row, row, c);
        assert cells[c] == Placed(row, row, transformed, c) == transformed[Slot(row, row, c)];
      }
    }
  }

  /** What lands in cell c when a sample goes back to the cells it came from. */
  function Placed(row: Row, mask: Row, sample: seq<Value>, c: nat): Value
    requires c < |row| && |sample| == |Present(row, mask)|
  {
    if row[c].Some? && CellAt(mask, c).Some? then
      SlotInRange(row, mask, c);
      sample[Slot(row, mask, c)]
    else None
  }

  ghost function PlacedUpTo(row: Row, mask: Row, sample: seq<Value>, n: nat): (r: Row)
    requires n <= |row| && |sample| == |Present(row, mask)|
    ensures |r| == n
  {
    if n == 0 then [] else PlacedUpTo(row, mask, sample, n - 1) + [Placed(row, mask, sample, n - 1)]
  }

  lemma {:induction false} PlacedAt(row: Row, mask: Row, sample: seq<Value>, n: nat, c: nat)
    requires c < n <= |row| && |sample| == |Present(row, mask)|
    ensures PlacedUpTo(row, mask, sample, n)[c] == Placed(row, mask, sample, c)
  {
    if c < n - 1 {
      PlacedAt(row, mask, sample, n - 1, c);
    }
  }

  /** Writes the transformed sample back to the cells it was taken from; the other cells are NaN. */
  method ScatterBack(row: Row, mask: Row, sample: seq<Value>) returns (cells: Row)
    requires |sample| == |Present(row, mask)|
    ensures |cells| == |row| && forall c :: 0 <= c < |row| ==> cells[c] == Placed(row, mask, sample, c)
  {
    cells := [];
    var slot := 0;
    for c := 0 to |row|
      invariant slot == Slot(row, mask, c) && cells == PlacedUpTo(row, mask, sample, c)
    {
      SlotNext(row, mask, c);
      if row[c].Some? && CellAt(mask, c).Some? {
        SlotInRange(row, mask, c);
        cells := cells + [sample[slot]];
        slot := slot + 1;
      } else {
        cells := cells + [None];
      }
    }
    forall c | 0 <= c < |row|
      ensures cells[c] == Placed(row, mask, sample, c)
    {
      PlacedAt(row, mask, sample, |row|, c);
    }
  }

  method Neutralise(k: Kernels, values: Grid, exposure: Grid) returns (r: Grid)
    requires |values| == |exposure|
    ensures r == Neutralized(k, values, exposure)
  {
    var result: seq<Row> := [];
    for t := 0 to |values|
      invariant |result| == t && forall s :: 0 <= s < t ==> result[s] == NeutralRow(k, values[s], exposure[s])
    {
      var cells := NeutralCells(k, values[t], exposure[t]);
      result := result + [cells];
    }
    r := result;
    NeutralRows(k, values, exposure, r);
  }

  method NeutralCells(k: Kernels, target: Row, factor: Row) returns (cells: Row)
    ensures cells == NeutralRow(k, target, factor)
  {
    var targets, factors := Present(target, factor), Present(factor, target);
    if |targets| < 2 {
      cells := seq(|target|, _ => None);
      assert forall c :: 0 <= c < |target| ==> cells[c] == NeutralCell(k, target, factor, c);
      return;
    }
    var residuals := seq(|targets|, p requires 0 <= p < |targets| => k.residual(targets, factors, p));
    cells := ScatterBack(target, factor, residuals);
    forall c | 0 <= c < |target|
      ensures cells[c] == NeutralCell(k, target, factor, c)
    {
      if target[c].Some? && CellAt(factor, c).Some? {
        SlotInRange(target, factor, c);
        assert cells[c] == Placed(target, factor, residuals, c) == residuals[Slot(target, factor, c)];
      }
    }
  }

  method Evaluate(k: Kernels, e: Expression, p: Panel) returns (r: Result<Grid, EvalError>)
    requires p.Valid() && WellFormed(e)
    ensures r == Eval(k, e, p)
    decreases e
  {
    match e
    case Field(name) =>
      return if name in p.fields then Ok(p.fields[name]) else Err(MissingField(name));
    case Apply(op, args) =>
      var grids: seq<Grid> := [];
      for i := 0 to |args|
        invariant EvalArguments(k, e, p, i) == Ok(grids)
        invariant forall j :: 0 <= j < i ==> |grids[j]| == p.height
      {
        var value: Result<Grid, EvalError>;
        if args[i].Nested? {
          value := Evaluate(k, args[i].expression, p);
          LookBack.BoundedLookBack(k, args[i].expression, p, 0, p.height);
        } else if !FitsFloat(k, args[i]) {
          value := Err(IntegerTooLarge);
        } else {
          value := Ok(Full(p.height, p.width, k.number(args[i])));
        }
        if value.Err? {
          ArgumentFails(k, e, p, i);
          return Err(value.error);
        }
        grids := grids + [value.value];
      }
      if op == Winsorize && |args| == 2 && args[1].Nested? {
        return Err(LimitNotNumeric);
      }
      var grid := ApplyOperator(k, op, args, grids, p.width);
      return Ok(grid);
  }

  lemma {:induction false} ArgumentFails(k: Kernels, e: Expression, p: Panel, i: nat)
    requires WellFormed(e) && e.Apply? && i < |e.args| && EvalArguments(k, e, p, i + 1).Err?
    ensures EvalArguments(k, e, p, |e.args|) == EvalArguments(k, e, p, i + 1)
  {
    FailurePersists(k, e, p, i + 1, |e.args|);
  }

  lemma {:induction false} FailurePersists(k: Kernels, e: Expression, p: Panel, m: nat, n: nat)
    requires WellFormed(e) && e.Apply? && m <= n <= |e.args| && EvalArguments(k, e, p, m).Err?
    ensures EvalArguments(k, e, p, n) == EvalArguments(k, e, p, m)
    decreases n
  {
    if m < n {
      FailurePersists(k, e, p, m, n - 1);
    }
  }

  method ApplyOperator(k: Kernels, op: Operator, args: seq<Argument>, grids: seq<Grid>, width: nat) returns (r: Grid)
    requires op.Arity().0 <= |args| == |grids| && forall i, j :: 0 <= i < j < |grids| ==> |grids[i]| == |grids[j]|
    ensures r == Applied(k, op, args, grids, width)
  {
    var window := WindowOf(args);
    match op
    case Log => r := Mapped(k, op, grids[0], width);
    case Abs => r := Mapped(k, op, grids[0], width);
    case Sign => r := Mapped(k, op, grids[0], width);
    case Ref => r := Shift(grids[0], window, width);
    case Delta =>
      var shifted := Shift(grids[0], window, width);
      r := Combined(k, Sub, grids[0], shifted, width);
    case Corr => r := RollPairs(k, grids[0], grids[1], window, op, width);
    case Cov => r := RollPairs(k, grids[0], grids[1], window, op, width);
    case RankCS => r := CrossSection(k, grids[0], op, LimitOf(k, args));
    case ZScore => r := CrossSection(k, grids[0], op, LimitOf(k, args));
    case Winsorize => r := CrossSection(k, grids[0], op, LimitOf(k, args));
    case Neutralize => r := Neutralise(k, grids[0], grids[1]);
    case Add => r := Combined(k, op, grids[0], grids[1], width);
    case Sub => r := Combined(k, op, grids[0], grids[1], width);
    case Mul => r := Combined(k, op, grids[0], grids[1], width);
    case Div => r := Combined(k, op, grids[0], grids[1], width);
    case Power => r := Combined(k, op, grids[0], grids[1], width);
    case _ => r := RollWindows(k, grids[0], window, op, width);
  }
}
