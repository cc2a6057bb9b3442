/** What the operators across symbols make of a row, stated at the cells of evaluated expressions. */
module CrossSectionLaws {
  import opened Wrappers
  import opened Dsl
  import opened Evaluator
  import opened LookBack
  import opened EvaluatorLaws
  import opened Totals
  import Ordering
  import Ranking

  // Every value of an expression has the panel's shape.

  lemma EachShaped(f: Row -> Row, g: Grid, height: nat, width: nat)
    requires Shaped(g, height, width) && forall row: Row :: |row| == width ==> |f(row)| == width
    ensures Shaped(Each(f, g), height, width)
  {
    var r := Each(f, g);
    forall t | 0 <= t < |r|
      ensures |r[t]| == width
    {
      assert RowAt(g, t) == g[t] && r[t] == f(RowAt(g, t));
    }
  }

  lemma ZippedShaped(f: (Row, Row) -> Row, a: Grid, b: Grid, height: nat, width: nat)
    requires Shaped(a, height, width) && forall x: Row, y: Row :: |x| == width ==> |f(x, y)| == width
    ensures Shaped(Zipped(f, a, b), height, width)
  {
    var r := Zipped(f, a, b);
    forall t | 0 <= t < |r|
      ensures |r[t]| == width
    {
      assert RowAt(a, t) == a[t] && r[t] == f(RowAt(a, t), RowAt(b, t));
    }
  }

  lemma TrailingShaped(f: Grid -> Row, g: Grid, window: nat, height: nat, width: nat)
    requires |g| == height && forall sample: Grid :: |f(sample)| == width
    ensures Shaped(Trailing(f, g, window, width), height, width)
  {
    var r := Trailing(f, g, window, width);
    forall t | 0 <= t < |r|
      ensures |r[t]| == width
    {
      assert r[t] == if t < window - 1 then NanRow(width) else f(Window(g, t, window));
    }
  }

  lemma TrailingPairShaped(f: (Grid, Grid) -> Row, a: Grid, b: Grid, window: nat, height: nat, width: nat)
    requires |a| == height && forall x: Grid, y: Grid :: |f(x, y)| == width
    ensures Shaped(TrailingPair(f, a, b, window, width), height, width)
  {
    var r := TrailingPair(f, a, b, window, width);
    forall t | 0 <= t < |r|
      ensures |r[t]| == width
    {
      assert r[t] == if t < window - 1 then NanRow(width) else f(Window(a, t, window), Window(b, t, window));
    }
  }

  lemma ShiftedShaped(g: Grid, n: nat, height: nat, width: nat)
    requires Shaped(g, height, width)
    ensures Shaped(Shifted(g, n, width), height, width)
  {
    var r := Shifted(g, n, width);
    forall t | 0 <= t < |r|
      ensures |r[t]| == width
    {
      assert r[t] == if t < n then NanRow(width) else RowAt(g, t - n);
    }
  }

  lemma WindowedShaped(k: Kernels, op: Operator, a: Grid, b: Grid, n: nat, height: nat, width: nat)
    requires Shaped(a, height, width)
    ensures Shaped(Shifted(a, n, width), height, width)
    ensures Shaped(Combined(k, Sub, a, Shifted(a, n, width), width), height, width)
    ensures Shaped(Rolled(k, op, a, n, width), height, width)
    ensures Shaped(RolledPair(k, op, a, b, n, width), height, width)
  {
    ShiftedShaped(a, n, height, width);
    ZippedShaped((x, y) => CombinedRow(k, Sub, x, y, width), a, Shifted(a, n, width), height, width);
    TrailingShaped(sample => RolledRow(k, op, sample, width), a, n, height, width);
    TrailingPairShaped((x, y) => PairRow(k, op, x, y, width), a, b, n, height, width);
  }

  lemma RowwiseShaped(k: Kernels, op: Operator, a: Grid, b: Grid, limit: Value, height: nat, width: nat)
    requires Shaped(a, height, width)
    ensures Shaped(Combined(k, op, a, b, width), height, width)
    ensures Shaped(Mapped(k, op, a, width), height, width)
    ensures Shaped(CrossSectioned(k, op, a, limit), height, width)
    ensures Shaped(Neutralized(k, a, b), height, width)
  {
    ZippedShaped((x, y) => CombinedRow(k, op, x, y, width), a, b, height, width);
    EachShaped(x => MappedRow(k, op, x, width), a, height, width);
    EachShaped(x => CrossRow(k, op, x, limit), a, height, width);
    ZippedShaped((x, y) => NeutralRow(k, x, y), a, b, height, width);
  }

  lemma AppliedShaped(k: Kernels, op: Operator, args: seq<Argument>, grids: seq<Grid>, p: Panel)
    requires op.Arity().0 <= |args| == |grids| && Shaped(grids[0], p.height, p.width)
    ensures Shaped(Applied(k, op, args, grids, p.width), p.height, p.width)
  {
    var second := if |grids| > 1 then grids[1] else grids[0];
    if op.TakesWindow() {
      WindowedShaped(k, op, grids[0], second, WindowOf(args), p.height, p.width);
    } else {
      RowwiseShaped(k, op, grids[0], second, LimitOf(k, args), p.height, p.width);
    }
  }

  lemma {:induction false} EvalShaped(k: Kernels, e: Expression, p: Panel)
    requires p.Valid() && WellFormed(e) && Eval(k, e, p).Ok?
    ensures Shaped(Eval(k, e, p).value, p.height, p.width)
    decreases e, 1
  {
    if e.Apply? {
      ArgumentsShaped(k, e, p, |e.args|);
      AppliedShaped(k, e.op, e.args, EvalArguments(k, e, p, |e.args|).value, p);
    }
  }

  lemma {:induction false} ArgumentsShaped(k: Kernels, e: Expression, p: Panel, n: nat)
    requires p.Valid() && WellFormed(e) && e.Apply? && n <= |e.args| && EvalArguments(k, e, p, n).Ok?
    ensures forall i :: 0 <= i < n ==> Shaped(EvalArguments(k, e, p, n).value[i], p.height, p.width)
    decreases e, 0, n
  {
    if n > 0 {
      ArgumentsShaped(k, e, p, n - 1);
      if e.args[n - 1].Nested? {
        EvalShaped(k, e.args[n - 1].expression, p);
      }
    }
  }

  // The present cells of a row.

  /** The columns where both rows have numbers. */
  ghost function Shared(row: Row, mask: Row): set<int> {
    set j | 0 <= j < |row| && Both(row[j], CellAt(mask, j))
  }

  ghost function SharedBelow(row: Row, mask: Row, c: int): set<int> {
    set j | 0 <= j < |row| && j < c && Both(row[j], CellAt(mask, j))
  }

  /** There are as many present numbers as shared columns. */
  lemma {:induction false} PresentCount(row: Row, mask: Row)
    ensures |Present(row, mask)| == |Shared(row, mask)|
  {
    if row != [] {
      var init, n := row[..|row| - 1], |row| - 1;
      PresentCount(init, mask);
      assert Shared(row, mask) == Shared(init, mask) + if Both(row[n], CellAt(mask, n)) then {n} else {};
    }
  }

  /** A column's slot is how many shared columns come before it. */
  lemma SlotCounts(row: Row, mask: Row, c: nat)
    requires c <= |row|
    ensures Slot(row, mask, c) == |SharedBelow(row, mask, c)|
  {
    PresentCount(row[..c], mask);
    assert Shared(row[..c], mask) == SharedBelow(row, mask, c);
  }

  /** A shared column's number stands in its slot. */
  lemma {:induction false} PresentAt(row: Row, mask: Row, c: nat)
    requires c in Shared(row, mask)
    ensures Slot(row, mask, c) < |Present(row, mask)| && Present(row, mask)[Slot(row, mask, c)] == row[c].value
  {
    SlotInRange(row, mask, c);
    var init, n := row[..|row| - 1], |row| - 1;
    if c < n {
      PresentAt(init, mask, c);
      assert init[..c] == row[..c];
    } else {
      assert row[..c] == init;
    }
  }

  lemma {:induction false} SlotOnto(row: Row, mask: Row, q: nat) returns (c: nat)
    requires q < |Present(row, mask)|
    ensures c in Shared(row, mask) && Slot(row, mask, c) == q
  {
    var init, n := row[..|row| - 1], |row| - 1;
    if q < |Present(init, mask)| {
      c := SlotOnto(init, mask, q);
      assert init[..c] == row[..c];
    } else {
      c := n;
      assert row[..c] == init;
    }
  }

  lemma SlotIncreases(row: Row, mask: Row, c: nat, d: nat)
    requires c in Shared(row, mask) && c < d <= |row|
    ensures Slot(row, mask, c) < Slot(row, mask, d)
  {
    SlotNext(row, mask, c);
    PresentGrows(row[..d], mask, c + 1);
    assert row[..d][..c + 1] == row[..c + 1];
  }

  // Ranks.

  /** The shared columns ranked before c: by value, and by position between equal values. */
  ghost function ColumnsBefore(row: Row, mask: Row, c: int): set<int>
    requires c in Shared(row, mask)
  {
    set j | j in Shared(row, mask) && (row[j].value < row[c].value || (row[j].value == row[c].value && j < c))
  }

  ghost function SlotOf(row: Row, mask: Row, j: int): int {
    if 0 <= j <= |row| then Slot(row, mask, j) else -1
  }

  lemma {:induction false} SizeByImage(from: set<int>, onto: set<int>, row: Row, mask: Row)
    requires forall j :: j in from ==> j in Shared(row, mask) && SlotOf(row, mask, j) in onto
    requires forall q :: q in onto ==> exists j :: j in from && SlotOf(row, mask, j) == q
    ensures |from| == |onto|
    decreases from
  {
    if from == {} {
      forall q
        ensures q !in onto
      {
        assert q in onto ==> exists j :: j in from && SlotOf(row, mask, j) == q;
      }
    } else {
      var j := Ordering.Pick(from);
      var q := SlotOf(row, mask, j);
      assert j in Shared(row, mask);
      forall i | i in from - {j}
        ensures SlotOf(row, mask, i) != q
      {
        assert i in Shared(row, mask);
        if i < j {
          SlotIncreases(row, mask, i, j);
        } else {
          SlotIncreases(row, mask, j, i);
        }
      }
      SizeByImage(from - {j}, onto - {q}, row, mask);
    }
  }

  lemma RankCounts(row: Row, mask: Row, c: nat)
    requires c in Shared(row, mask)
    ensures Ranking.RankOf(Present(row, mask), Slot(row, mask, c)) == |ColumnsBefore(row, mask, c)|
  {
    var sample, s := Present(row, mask), Slot(row, mask, c);
    var from, onto := ColumnsBefore(row, mask, c), Ranking.Before(sample, s);
    PresentAt(row, mask, c);
    forall j | j in Shared(row, mask)
      ensures j in from <==> SlotOf(row, mask, j) in onto
    {
      PresentAt(row, mask, j);
      if j < c {
        SlotIncreases(row, mask, j, c);
      } else if c < j {
        SlotIncreases(row, mask, c, j);
      }
    }
    forall q | q in onto
      ensures exists j :: j in from && SlotOf(row, mask, j) == q
    {
      var j := SlotOnto(row, mask, q);
      assert j in from && SlotOf(row, mask, j) == q;
    }
    SizeByImage(from, onto, row, mask);
  }

  /** The row an expression has at time t. */
  ghost function RowOf(k: Kernels, a: Expression, p: Panel, t: int): Row {
    if WellFormed(a) && Eval(k, a, p).Ok? then RowAt(Eval(k, a, p).value, t) else []
  }

  lemma RowShaped(k: Kernels, a: Expression, p: Panel, t: int)
    requires Defined(k, a, p) && 0 <= t < p.height
    ensures |RowOf(k, a, p, t)| == p.width
    ensures forall c :: 0 <= c < p.width ==> Cell(k, a, p, t, c) == RowOf(k, a, p, t)[c]
  {
    EvalShaped(k, a, p);
  }

  lemma AppliedCross(k: Kernels, op: Operator, args: seq<Argument>, grids: seq<Grid>, width: nat)
    requires op == RankCS || op == ZScore || op == Winsorize
    requires op.Arity().0 <= |args| == |grids|
    ensures Applied(k, op, args, grids, width) == CrossSectioned(k, op, grids[0], LimitOf(k, args))
  {
  }

  lemma CrossedCell(k: Kernels, op: Operator, g: Grid, limit: Value, t: int, c: int)
    requires 0 <= t < |g| && 0 <= c < |g[t]|
    ensures CellAt(RowAt(CrossSectioned(k, op, g, limit), t), c) == CrossCell(k, op, g[t], c, limit)
  {
    assert RowAt(g, t) == g[t];
    assert RowAt(CrossSectioned(k, op, g, limit), t) == CrossRow(k, op, RowAt(g, t), limit);
  }

  lemma CrossedUnary(k: Kernels, op: Operator, a: Expression, p: Panel, t: int, c: int)
    requires Defined(k, a, p) && InPanel(p, t, c) && (op == RankCS || op == ZScore || op == Winsorize)
    ensures |RowOf(k, a, p, t)| == p.width
    ensures Cell(k, Unary(op, a), p, t, c) == CrossCell(k, op, RowOf(k, a, p, t), c, Some(3.0))
  {
    UnaryEval(k, op, a, p);
    RowShaped(k, a, p, t);
    AppliedCross(k, op, [Nested(a)], [Eval(k, a, p).value], p.width);
    CrossedCell(k, op, Eval(k, a, p).value, Some(3.0), t, c);
  }

  /** The number of present cells times the cross-sectional rank is one more than how many present cells of
      the row are smaller, or equal and further left. */
  lemma RankCSCells(k: Kernels, a: Expression, p: Panel, t: int, c: int)
    requires Defined(k, a, p) && InPanel(p, t, c)
    ensures var row, rank := RowOf(k, a, p, t), Cell(k, Unary(RankCS, a), p, t, c);
      && (rank.Some? <==> c in Shared(row, row))
      && (rank.Some? ==> IsShare(rank.value, 1 + |ColumnsBefore(row, row, c)|, |Shared(row, row)|))
  {
    CrossedUnary(k, RankCS, a, p, t, c);
    var row := RowOf(k, a, p, t);
    if row[c].Some? {
      PresentCount(row, row);
      RankCounts(row, row, c);
      SlotInRange(row, row, c);
      RankShare(k, Present(row, row), Slot(row, row, c), |ColumnsBefore(row, row, c)|);
    }
  }

  lemma RankShare(k: Kernels, sample: seq<real>, s: nat, count: nat)
    requires s < |sample| && Ranking.RankOf(sample, s) == count
    ensures var rank := Transformed(k, RankCS, sample, s, Some(3.0));
      rank.Some? && IsShare(rank.value, 1 + count, |sample|)
  {
    var share := (count + 1) as real / |sample| as real;
    assert share * |sample| as real == (count + 1) as real;
  }

  // Standard scores.

  /** The present numbers by column. */
  ghost function ByColumn(row: Row, mask: Row): map<int, real> {
    map j | j in Shared(row, mask) :: row[j].value
  }

  lemma NumbersNext(sample: seq<real>, x: real)
    ensures Numbers(sample + [x]) == Numbers(sample) + [Some(x)]
  {
  }

  lemma ColumnNext(row: Row, mask: Row)
    requires row != []
    ensures var init, n := row[..|row| - 1], |row| - 1;
      Total(ByColumn(row, mask))
      == Total(ByColumn(init, mask)) + if Both(row[n], CellAt(mask, n)) then row[n].value else 0.0
  {
    var init, n := row[..|row| - 1], |row| - 1;
    if Both(row[n], CellAt(mask, n)) {
      assert ByColumn(row, mask) == ByColumn(init, mask)[n := row[n].value];
      TotalUpdate(ByColumn(init, mask), n, row[n].value);
    } else {
      assert ByColumn(row, mask) == ByColumn(init, mask);
    }
  }

  lemma {:induction false} SumIsTotal(row: Row, mask: Row)
    ensures SumOf(Numbers(Present(row, mask))) == Some(Total(ByColumn(row, mask)))
  {
    if row == [] {
      assert ByColumn(row, mask) == map[];
    } else {
      var before, n := Present(row[..|row| - 1], mask), |row| - 1;
      SumIsTotal(row[..|row| - 1], mask);
      ColumnNext(row, mask);
      if Both(row[n], CellAt(mask, n)) {
        NumbersNext(before, row[n].value);
        SumNext(Numbers(before), row[n]);
      } else {
        assert Present(row, mask) == before;
      }
    }
  }

  /** z is how many deviations x lies above a mean; with no deviation it is zero. */
  predicate IsScore(z: Value, x: real, total: real, size: nat, deviation: Value)
    requires 0 < size
  {
    if deviation == Some(0.0) then z == Some(0.0)
    else if deviation.None? then z.None?
    else z.Some? && IsMultiple(z.value, deviation.value, x, total / size as real)
  }

  predicate IsMultiple(z: real, deviation: real, x: real, mean: real) {
    z * deviation == x - mean
  }

  lemma ScoreOf(k: Kernels, sample: seq<real>, s: nat, total: real)
    requires s < |sample| && SumOf(Numbers(sample)) == Some(total)
    ensures IsScore(Standardised(k, sample, s), sample[s], total, |sample|, k.std(Numbers(sample)))
  {
    var mean, deviation := total / |sample| as real, k.std(Numbers(sample));
    if deviation.Some? && deviation.value != 0.0 {
      var z := (sample[s] - mean) / deviation.value;
      assert z * deviation.value == sample[s] - mean;
      assert IsMultiple(z, deviation.value, sample[s], mean);
    }
  }

  /** A standard score is the cell less the mean of the row's present cells, in units of their deviation. */
  lemma ZScoreCells(k: Kernels, a: Expression, p: Panel, t: int, c: int)
    requires Defined(k, a, p) && InPanel(p, t, c)
    ensures var row, z := RowOf(k, a, p, t), Cell(k, Unary(ZScore, a), p, t, c);
      if c in Shared(row, row)
      then |Shared(row, row)| > 0
        && IsScore(z, row[c].value, Total(ByColumn(row, row)), |Shared(row, row)|, k.std(Numbers(Present(row, row))))
      else z.None?
  {
    CrossedUnary(k, ZScore, a, p, t, c);
    var row := RowOf(k, a, p, t);
    if row[c].Some? {
      PresentCount(row, row);
      PresentAt(row, row, c);
      SumIsTotal(row, row);
      ScoreOf(k, Present(row, row), Slot(row, row, c), Total(ByColumn(row, row)));
    }
  }

  /** w is z inside the limits, and the nearer limit outside. */
  predicate IsClipped(w: Value, z: Value, limit: real) {
    if z.None? then w.None?
    else
      && w.Some? && -limit <= w.value <= limit
      && (-limit <= z.value <= limit ==> w == z)
      && (limit < z.value ==> w.value == limit) && (z.value < -limit ==> w.value == -limit)
  }

  /** Winsorized cells are the standard scores clipped to plus or minus the limit, 3 when none is given. */
  lemma WinsorizeCells(k: Kernels, a: Expression, p: Panel, t: int, c: int)
    requires Defined(k, a, p) && InPanel(p, t, c)
    ensures IsClipped(Cell(k, Unary(Winsorize, a), p, t, c), Cell(k, Unary(ZScore, a), p, t, c), 3.0)
  {
    CrossedUnary(k, ZScore, a, p, t, c);
    CrossedUnary(k, Winsorize, a, p, t, c);
  }

  lemma LimitedEval(k: Kernels, a: Expression, limit: Argument, p: Panel)
    requires Defined(k, a, p) && !limit.Nested? && FitsFloat(k, limit)
    ensures var e := Apply(Winsorize, [Nested(a), limit]);
      && Defined(k, e, p)
      && exists second: Grid ::
           Eval(k, e, p) == Ok(Applied(k, Winsorize, [Nested(a), limit], [Eval(k, a, p).value, second], p.width))
  {
    var e := Apply(Winsorize, [Nested(a), limit]);
    assert e.args[0] == Nested(a) && e.args[1] == limit;
    TwoEvaluate(k, e, p);
    IsDefined(k, e, p);
    assert Eval(k, e, p) == Ok(Applied(k, Winsorize, [Nested(a), limit],
                                       [Eval(k, a, p).value, EvalArgument(k, e, p, 1).value], p.width));
  }

  /** The same with the limit written in the expression. */
  lemma LimitedCells(k: Kernels, a: Expression, limit: Argument, p: Panel, t: int, c: int)
    requires Defined(k, a, p) && InPanel(p, t, c) && !limit.Nested? && FitsFloat(k, limit)
    requires k.number(limit).Some? && 0.0 <= k.number(limit).value
    ensures IsClipped(Cell(k, Apply(Winsorize, [Nested(a), limit]), p, t, c), Cell(k, Unary(ZScore, a), p, t, c),
                      k.number(limit).value)
  {
    var e, g := Apply(Winsorize, [Nested(a), limit]), Eval(k, a, p).value;
    CrossedUnary(k, ZScore, a, p, t, c);
    RowShaped(k, a, p, t);
    LimitedEval(k, a, limit, p);
    var second: Grid :| Eval(k, e, p) == Ok(Applied(k, Winsorize, [Nested(a), limit], [g, second], p.width));
    AppliedCross(k, Winsorize, [Nested(a), limit], [g, second], p.width);
    CrossedCell(k, Winsorize, g, k.number(limit), t, c);
  }

  /** A neutralised cell is the kernel's residual of the cell's column among the columns where both rows have
      numbers, of which there must be two. */
  lemma NeutralizeCells(k: Kernels, a: Expression, b: Expression, p: Panel, t: int, c: int)
    requires Operands(k, a, b, p, t, c)
    ensures var target, factor := RowOf(k, a, p, t), RowOf(k, b, p, t);
      Cell(k, Binary(Neutralize, a, b), p, t, c)
      == if |Shared(target, factor)| < 2 || c !in Shared(target, factor) then None
         else k.residual(Present(target, factor), Present(factor, target), |SharedBelow(target, factor, c)|)
  {
    BinaryEval(k, Neutralize, a, b, p);
    RowShaped(k, a, p, t);
    RowShaped(k, b, p, t);
    var target, factor := RowOf(k, a, p, t), RowOf(k, b, p, t);
    PresentCount(target, factor);
    SlotCounts(target, factor, c);
    NeutralizedCell(k, Eval(k, a, p).value, Eval(k, b, p).value, t, c);
  }

  lemma NeutralizedCell(k: Kernels, a: Grid, b: Grid, t: int, c: int)
    requires 0 <= t < |a| && 0 <= c < |a[t]|
    ensures CellAt(RowAt(Neutralized(k, a, b), t), c) == NeutralCell(k, a[t], RowAt(b, t), c)
  {
    assert RowAt(a, t) == a[t];
    assert RowAt(Neutralized(k, a, b), t) == NeutralRow(k, RowAt(a, t), RowAt(b, t));
  }

  // Two columns over a window.

  function Paired(op: Operator, a: Expression, b: Expression, n: nat): Expression {
    Apply(op, [Nested(a), Nested(b), IntArg(n)])
  }

  lemma PairedEval(k: Kernels, op: Operator, a: Expression, b: Expression, n: nat, p: Panel) returns (third: Grid)
    requires Defined(k, a, p) && Defined(k, b, p) && (op == Corr || op == Cov) && 0 < n < k.floatLimit
    ensures Defined(k, Paired(op, a, b, n), p)
    ensures Eval(k, Paired(op, a, b, n), p)
         == Ok(Applied(k, op, [Nested(a), Nested(b), IntArg(n)], [Eval(k, a, p).value, Eval(k, b, p).value, third],
           p.width))
  {
    var e := Paired(op, a, b, n);
    var none: seq<Grid> := [];
    assert e.args[0] == Nested(a) && e.args[1] == Nested(b) && e.args[2] == IntArg(n);
    var x, y := Eval(k, a, p).value, Eval(k, b, p).value;
    assert EvalArguments(k, e, p, 0) == Ok(none);
    assert none + [x] == [x] && [x] + [y] == [x, y];
    assert EvalArguments(k, e, p, 1) == Ok([x]);
    assert EvalArguments(k, e, p, 2) == Ok([x, y]);
    third := EvalArgument(k, e, p, 2).value;
    assert [x, y] + [third] == [x, y, third];
    assert EvalArguments(k, e, p, 3) == Ok([x, y, third]);
    IsDefined(k, e, p);
  }

  lemma RolledPairCell(k: Kernels, op: Operator, x: Grid, y: Grid, n: nat, width: nat, t: int, c: int)
    requires 0 <= t < |x| && 0 <= c < width && 0 < n
    ensures CellAt(RowAt(RolledPair(k, op, x, y, n, width), t), c)
         == if t < n - 1 then None else Pairing(k, op, Column(Window(x, t, n), c), Column(Window(y, t, n), c))
  {
    assert RowAt(RolledPair(k, op, x, y, n, width), t)
      == if t < n - 1 then NanRow(width) else PairRow(k, op, Window(x, t, n), Window(y, t, n), width);
    assert CellAt(NanRow(width), c) == None;
  }

  /** A covariance is the kernel's of the two windows; a correlation too, where both deviations are positive. */
  lemma PairCells(k: Kernels, op: Operator, a: Expression, b: Expression, n: nat, p: Panel, t: int, c: int)
    requires Operands(k, a, b, p, t, c) && (op == Corr || op == Cov) && 0 < n < k.floatLimit
    ensures var x, y := Past(k, a, p, t, c, n), Past(k, b, p, t, c, n);
      Cell(k, Paired(op, a, b, n), p, t, c)
      == if t < n - 1 then None
         else if op == Cov then k.cov(x, y)
         else if k.std(x).Some? && k.std(x).value > 0.0 && k.std(y).Some? && k.std(y).value > 0.0 then k.corr(x, y)
         else None
  {
    var x, y := Eval(k, a, p).value, Eval(k, b, p).value;
    var third := PairedEval(k, op, a, b, n, p);
    assert [Nested(a), Nested(b), IntArg(n)][2] == IntArg(n);
    assert WindowOf([Nested(a), Nested(b), IntArg(n)]) == n;
    RolledPairCell(k, op, x, y, n, p.width, t, c);
    if n - 1 <= t {
      WindowColumn(x, t, n, c);
      WindowColumn(y, t, n, c);
      PastColumn(k, a, p, t, c, n);
      PastColumn(k, b, p, t, c, n);
    }
  }
}
