/** Evaluation of factor expressions over panels of time rows and symbol columns. */
module Evaluator {
  import opened Wrappers
  import opened Dsl
  import Ranking

  /** A float cell: a number, or None for NaN. */
  type Value = Option<real>
  type Row = seq<Value>
  type Grid = seq<Row>

  /** Numeric functions of foreign libraries: each depends only on the cells it is given. The float limit
      is the least integer too large to convert to a float. */
  datatype Kernels = Kernels(
    floatLimit: nat, ln: real -> Value, power: (Value, Value) -> Value, number: Argument -> Value,
    std: Row -> Value, cov: (Row, Row) -> Value, corr: (Row, Row) -> Value,
    residual: (seq<real>, seq<real>, nat) -> Value)

  datatype Panel = Panel(height: nat, width: nat, fields: map<RawField, Grid>) {
    /** Every field has one row per time and one cell per symbol. */
    ghost predicate Valid() {
      0 < width && forall f :: f in fields ==> Shaped(fields[f], height, width)
    }
  }

  ghost predicate Shaped(g: Grid, height: nat, width: nat) {
    |g| == height && forall t :: 0 <= t < |g| ==> |g[t]| == width
  }

  datatype EvalError = MissingField(field: RawField) | IntegerTooLarge | LimitNotNumeric

  function RowAt(g: Grid, t: int): Row {
    if 0 <= t < |g| then g[t] else []
  }

  function CellAt(row: Row, c: int): Value {
    if 0 <= c < |row| then row[c] else None
  }

  function Full(height: nat, width: nat, v: Value): (g: Grid)
    ensures Shaped(g, height, width)
  {
    seq(height, _ => seq(width, _ => v))
  }

  function NanRow(width: nat): Row {
    seq(width, _ => None)
  }

  // Row by row: the shapes every operator takes.

  function Each(f: Row -> Row, g: Grid): Grid {
    seq(|g|, t => f(RowAt(g, t)))
  }

  function Zipped(f: (Row, Row) -> Row, a: Grid, b: Grid): Grid {
    seq(|a|, t => f(RowAt(a, t), RowAt(b, t)))
  }

  /** The last `window` rows up to time t. */
  function Window(g: Grid, t: int, window: nat): Grid {
    if 0 <= t + 1 - window && t < |g| then g[t + 1 - window..t + 1] else []
  }

  function Trailing(f: Grid -> Row, g: Grid, window: nat, width: nat): Grid {
    seq(|g|, t => if t < window - 1 then NanRow(width) else f(Window(g, t, window)))
  }

  function TrailingPair(f: (Grid, Grid) -> Row, a: Grid, b: Grid, window: nat, width: nat): Grid {
    seq(|a|, t => if t < window - 1 then NanRow(width) else f(Window(a, t, window), Window(b, t, window)))
  }

  // Cell by cell.

  function Arithmetic(k: Kernels, op: Operator, a: Value, b: Value): Value {
    if op == Power then k.power(a, b)
    else if a.None? || b.None? then None
    else if op == Add then Some(a.value + b.value)
    else if op == Sub then Some(a.value - b.value)
    else if op == Mul then Some(a.value * b.value)
    else if b.value != 0.0 then Some(a.value / b.value)
    else None
  }

  function Elementwise(k: Kernels, op: Operator, a: Value): Value {
    if a.None? then None
    else if op == Log then if a.value > 0.0 then k.ln(a.value) else None
    else if op == Abs then Some(if a.value < 0.0 then -a.value else a.value)
    else Some(if a.value < 0.0 then -1.0 else if a.value > 0.0 then 1.0 else 0.0)
  }

  function Combined(k: Kernels, op: Operator, a: Grid, b: Grid, width: nat): Grid {
    Zipped((x, y) => CombinedRow(k, op, x, y, width), a, b)
  }

  function CombinedRow(k: Kernels, op: Operator, a: Row, b: Row, width: nat): Row {
    seq(width, c => Arithmetic(k, op, CellAt(a, c), CellAt(b, c)))
  }

  function Mapped(k: Kernels, op: Operator, a: Grid, width: nat): Grid {
    Each(x => MappedRow(k, op, x, width), a)
  }

  function MappedRow(k: Kernels, op: Operator, a: Row, width: nat): Row {
    seq(width, c => Elementwise(k, op, CellAt(a, c)))
  }

  // Along time.

  function Shifted(g: Grid, periods: nat, width: nat): Grid {
    seq(|g|, t => if t < periods then NanRow(width) else RowAt(g, t - periods))
  }

  function Column(sample: Grid, c: int): Row {
    seq(|sample|, i => CellAt(RowAt(sample, i), c))
  }

  /** A NaN anywhere makes the sum NaN. */
  function SumOf(column: Row): Value {
    if column == [] then Some(0.0)
    else
      var before, last := SumOf(column[..|column| - 1]), column[|column| - 1];
      if before.None? || last.None? then None else Some(before.value + last.value)
  }

  function MeanOf(column: Row): Value {
    var sum := SumOf(column);
    if sum.None? || column == [] then None else Some(sum.value / |column| as real)
  }

  function Extreme(column: Row, least: bool): Value {
    if column == [] then None
    else if |column| == 1 then column[0]
    else
      var before, last := Extreme(column[..|column| - 1], least), column[|column| - 1];
      if before.None? || last.None? then None
      else if (last.value < before.value) == least then last
      else before
  }

  /** How many cells are at most v; a NaN on either side compares false. */
  function CountAtMost(column: Row, v: Value): nat {
    if column == [] then 0
    else
      var last := column[|column| - 1];
      CountAtMost(column[..|column| - 1], v) + if last.Some? && v.Some? && last.value <= v.value then 1 else 0
  }

  function Rolling(k: Kernels, op: Operator, column: Row): Value {
    match op
    case Mean => MeanOf(column)
    case Sum => SumOf(column)
    case Std => k.std(column)
    case Min => Extreme(column, true)
    case Max => Extreme(column, false)
    case _ =>
      if column == [] then None
      else Some(CountAtMost(column, column[|column| - 1]) as real / |column| as real)
  }

  ghost predicate HasNan(column: Row) {
    exists i :: 0 <= i < |column| && column[i].None?
  }

  lemma {:induction false} SumNan(column: Row)
    ensures SumOf(column).None? <==> HasNan(column)
  {
    if column != [] {
      var init := column[..|column| - 1];
      SumNan(init);
      NanNext(init, column[|column| - 1]);
      assert column == init + [column[|column| - 1]];
    }
  }

  lemma NanNext(init: Row, last: Value)
    ensures HasNan(init + [last]) <==> HasNan(init) || last.None?
  {
    var column := init + [last];
    if HasNan(init) {
      var i :| 0 <= i < |init| && init[i].None?;
      assert column[i].None?;
    }
    assert column[|init|] == last;
  }

  lemma {:induction false} ExtremeNan(column: Row, least: bool)
    requires column != []
    ensures Extreme(column, least).None? <==> HasNan(column)
  {
    var init, last := column[..|column| - 1], column[|column| - 1];
    assert column == init + [last];
    NanNext(init, last);
    if |column| > 1 {
      ExtremeNan(init, least);
    }
  }

  lemma {:induction false} NanRanksLast(column: Row)
    ensures CountAtMost(column, None) == 0
  {
    if column != [] {
      NanRanksLast(column[..|column| - 1]);
    }
  }

  /** A NaN in a window makes its mean, sum, least and greatest NaN; its time-series rank is never NaN,
      and is 0 exactly when the window ends in NaN. */
  lemma RollingNan(k: Kernels, op: Operator, column: Row)
    ensures column != [] && (op == Mean || op == Sum || op == Min || op == Max) ==>
      (Rolling(k, op, column).None? <==> HasNan(column))
    ensures Rolling(k, RankTS, column).Some? <==> column != []
    ensures Rolling(k, RankTS, column) == Some(0.0) <==> column != [] && column[|column| - 1].None?
  {
    if column == [] {
      return;
    }
    SumNan(column);
    ExtremeNan(column, true);
    ExtremeNan(column, false);
    var last := column[|column| - 1];
    if last.None? {
      NanRanksLast(column);
    }
    PositiveShare(CountAtMost(column, last), |column|);
  }

  lemma PositiveShare(count: nat, size: nat)
    requires 0 < size
    ensures count as real / size as real == 0.0 <==> count == 0
  {
    var share := count as real / size as real;
    assert share * size as real == count as real;
  }

  function Rolled(k: Kernels, op: Operator, g: Grid, window: nat, width: nat): Grid {
    Trailing(sample => RolledRow(k, op, sample, width), g, window, width)
  }

  function RolledRow(k: Kernels, op: Operator, sample: Grid, width: nat): Row {
    seq(width, c => Rolling(k, op, Column(sample, c)))
  }

  predicate Positive(v: Value) {
    v.Some? && v.value > 0.0
  }

  function Pairing(k: Kernels, op: Operator, x: Row, y: Row): Value {
    if op == Cov then k.cov(x, y)
    else if Positive(k.std(x)) && Positive(k.std(y)) then k.corr(x, y)
    else None
  }

  function RolledPair(k: Kernels, op: Operator, a: Grid, b: Grid, window: nat, width: nat): Grid {
    TrailingPair((x, y) => PairRow(k, op, x, y, width), a, b, window, width)
  }

  function PairRow(k: Kernels, op: Operator, x: Grid, y: Grid, width: nat): Row {
    seq(width, c => Pairing(k, op, Column(x, c), Column(y, c)))
  }

  // Across symbols.

  /** The numbers of a row where the mask row has numbers too. */
  function Present(row: Row, mask: Row): seq<real> {
    if row == [] then []
    else
      var n := |row| - 1;
      Present(row[..n], mask) + if row[n].Some? && CellAt(mask, n).Some? then [row[n].value] else []
  }

  /** Where cell c of a row lands among the present numbers. */
  function Slot(row: Row, mask: Row, c: nat): nat
    requires c <= |row|
  {
    |Present(row[..c], mask)|
  }

  lemma {:induction false} PresentGrows(row: Row, mask: Row, c: nat)
    requires c <= |row|
    ensures |Present(row[..c], mask)| <= |Present(row, mask)|
  {
    if c < |row| {
      PresentGrows(row[..|row| - 1], mask, c);
      assert row[..|row| - 1][..c] == row[..c];
    } else {
      assert row[..c] == row;
    }
  }

  lemma SlotNext(row: Row, mask: Row, c: nat)
    requires c < |row|
    ensures Slot(row, mask, c + 1) == Slot(row, mask, c) + if row[c].Some? && CellAt(mask, c).Some? then 1 else 0
  {
    assert row[..c + 1][..c] == row[..c];
  }

  /** A present cell has a slot of its own. */
  lemma SlotInRange(row: Row, mask: Row, c: nat)
    requires c < |row| && row[c].Some? && CellAt(mask, c).Some?
    ensures Slot(row, mask, c) < |Present(row, mask)|
  {
    SlotNext(row, mask, c);
    PresentGrows(row, mask, c + 1);
  }

  function Clipped(x: real, limit: Value): Value {
    if limit.None? then None
    else
      var raised := if x < -limit.value then -limit.value else x;
      Some(if limit.value < raised then limit.value else raised)
  }

  function Numbers(sample: seq<real>): (r: Row)
    ensures |r| == |sample|
  {
    seq(|sample|, i requires 0 <= i < |sample| => Some(sample[i]))
  }

  function Standardised(k: Kernels, sample: seq<real>, p: nat): Value
    requires p < |sample|
  {
    var mean, std := MeanOf(Numbers(sample)), k.std(Numbers(sample));
    if std == Some(0.0) then Some(0.0)
    else if mean.None? || std.None? then None
    else Some((sample[p] - mean.value) / std.value)
  }

  ghost function Transformed(k: Kernels, op: Operator, sample: seq<real>, p: nat, limit: Value): Value
    requires p < |sample|
  {
    if op == RankCS then Some((Ranking.RankOf(sample, p) + 1) as real / |sample| as real)
    else
      var z := Standardised(k, sample, p);
      if op == Winsorize && z.Some? then Clipped(z.value, limit) else z
  }

  ghost function CrossCell(k: Kernels, op: Operator, row: Row, c: nat, limit: Value): Value
    requires c < |row|
  {
    if row[c].None? then None
    else
      SlotInRange(row, row, c);
      Transformed(k, op, Present(row, row), Slot(row, row, c), limit)
  }

  ghost function CrossRow(k: Kernels, op: Operator, row: Row, limit: Value): Row {
    seq(|row|, c requires 0 <= c < |row| => CrossCell(k, op, row, c, limit))
  }

  ghost function CrossSectioned(k: Kernels, op: Operator, g: Grid, limit: Value): Grid {
    Each(x => CrossRow(k, op, x, limit), g)
  }

  ghost function NeutralCell(k: Kernels, target: Row, factor: Row, c: nat): Value
    requires c < |target|
  {
    var targets, factors := Present(target, factor), Present(factor, target);
    if |targets| < 2 || target[c].None? || CellAt(factor, c).None? then None
    else k.residual(targets, factors, Slot(target, factor, c))
  }

  ghost function NeutralRow(k: Kernels, target: Row, factor: Row): Row {
    seq(|target|, c requires 0 <= c < |target| => NeutralCell(k, target, factor, c))
  }

  ghost function Neutralized(k: Kernels, a: Grid, b: Grid): Grid {
    Zipped((x, y) => NeutralRow(k, x, y), a, b)
  }

  // Expressions.

  function WindowOf(args: seq<Argument>): nat {
    if args != [] && args[|args| - 1].IntArg? && 0 < args[|args| - 1].value then args[|args| - 1].value else 1
  }

  function LimitOf(k: Kernels, args: seq<Argument>): Value {
    if |args| == 2 then k.number(args[1]) else Some(3.0)
  }

  ghost function Applied(k: Kernels, op: Operator, args: seq<Argument>, grids: seq<Grid>, width: nat): Grid
    requires op.Arity().0 <= |args| == |grids|
  {
    match op
    case Add => Combined(k, op, grids[0], grids[1], width)
    case Sub => Combined(k, op, grids[0], grids[1], width)
    case Mul => Combined(k, op, grids[0], grids[1], width)
    case Div => Combined(k, op, grids[0], grids[1], width)
    case Power => Combined(k, op, grids[0], grids[1], width)
    case Log => Mapped(k, op, grids[0], width)
    case Abs => Mapped(k, op, grids[0], width)
    case Sign => Mapped(k, op, grids[0], width)
    case Ref => Shifted(grids[0], WindowOf(args), width)
    case Delta => Combined(k, Sub, grids[0], Shifted(grids[0], WindowOf(args), width), width)
    case Corr => RolledPair(k, op, grids[0], grids[1], WindowOf(args), width)
    case Cov => RolledPair(k, op, grids[0], grids[1], WindowOf(args), width)
    case RankCS => CrossSectioned(k, op, grids[0], LimitOf(k, args))
    case ZScore => CrossSectioned(k, op, grids[0], LimitOf(k, args))
    case Winsorize => CrossSectioned(k, op, grids[0], LimitOf(k, args))
    case Neutralize => Neutralized(k, grids[0], grids[1])
    case _ => Rolled(k, op, grids[0], WindowOf(args), width)
  }

  /** Every literal becomes a panel of floats, windows and limits included; a large integer does not fit. */
  predicate FitsFloat(k: Kernels, argument: Argument) {
    argument.IntArg? ==> Absolute(argument.value) < k.floatLimit
  }

  /** The meaning of an expression on a panel; arguments are evaluated first, left to right. */
  ghost function Eval(k: Kernels, e: Expression, p: Panel): Result<Grid, EvalError>
    requires WellFormed(e)
    decreases e, 1
  {
    match e
    case Field(name) => if name in p.fields then Ok(p.fields[name]) else Err(MissingField(name))
    case Apply(op, args) =>
      var grids :- EvalArguments(k, e, p, |args|);
      if op == Winsorize && |args| == 2 && args[1].Nested? then Err(LimitNotNumeric)
      else Ok(Applied(k, op, args, grids, p.width))
  }

  ghost function EvalArguments(k: Kernels, e: Expression, p: Panel, n: nat): (r: Result<seq<Grid>, EvalError>)
    requires WellFormed(e) && e.Apply? && n <= |e.args|
    ensures r.Ok? ==> |r.value| == n
    decreases e, 0, n
  {
    if n == 0 then Ok([])
    else
      var earlier :- EvalArguments(k, e, p, n - 1);
      var last :- EvalArgument(k, e, p, n - 1);
      Ok(earlier + [last])
  }

  ghost function EvalArgument(k: Kernels, e: Expression, p: Panel, i: nat): Result<Grid, EvalError>
    requires WellFormed(e) && e.Apply? && i < |e.args|
    decreases e, 0, i
  {
    match e.args[i]
    case Nested(inner) => Eval(k, inner, p)
    case _ => if FitsFloat(k, e.args[i]) then Ok(Full(p.height, p.width, k.number(e.args[i]))) else Err(IntegerTooLarge)
  }
}
