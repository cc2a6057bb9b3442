/** What each operator makes of the cells it reads, stated at the cells of evaluated expressions. */
module EvaluatorLaws {
  import opened Wrappers
  import opened Dsl
  import opened Evaluator
  import opened LookBack
  import Ordering

  function Unary(op: Operator, a: Expression): Expression {
    Apply(op, [Nested(a)])
  }

  function Binary(op: Operator, a: Expression, b: Expression): Expression {
    Apply(op, [Nested(a), Nested(b)])
  }

  function Windowed(op: Operator, a: Expression, n: nat): Expression {
    Apply(op, [Nested(a), IntArg(n)])
  }

  /** The expression has a value on the panel. */
  ghost predicate Defined(k: Kernels, e: Expression, p: Panel) {
    p.Valid() && WellFormed(e) && Eval(k, e, p).Ok? && |Eval(k, e, p).value| == p.height
  }

  /** Its value at time t for symbol c. */
  ghost function Cell(k: Kernels, e: Expression, p: Panel, t: int, c: int): Value {
    if WellFormed(e) && Eval(k, e, p).Ok? then CellAt(RowAt(Eval(k, e, p).value, t), c) else None
  }

  ghost predicate InPanel(p: Panel, t: int, c: int) {
    0 <= t < p.height && 0 <= c < p.width
  }

  lemma IsDefined(k: Kernels, e: Expression, p: Panel)
    requires p.Valid() && WellFormed(e) && Eval(k, e, p).Ok?
    ensures Defined(k, e, p)
  {
    BoundedLookBack(k, e, p, 0, p.height);
  }

  // Arithmetic.

  predicate IsArithmetic(op: Operator) {
    op == Add || op == Sub || op == Mul || op == Div || op == Power
  }

  lemma BinaryEval(k: Kernels, op: Operator, a: Expression, b: Expression, p: Panel)
    requires Defined(k, a, p) && Defined(k, b, p) && op.Arity() == (2, 2) && !op.TakesWindow()
    ensures Defined(k, Binary(op, a, b), p)
    ensures Eval(k, Binary(op, a, b), p)
         == Ok(Applied(k, op, [Nested(a), Nested(b)], [Eval(k, a, p).value, Eval(k, b, p).value], p.width))
  {
    var e := Binary(op, a, b);
    assert e.args[0] == Nested(a) && e.args[1] == Nested(b);
    TwoEvaluate(k, e, p);
    IsDefined(k, e, p);
  }

  lemma AppliedArithmetic(k: Kernels, op: Operator, args: seq<Argument>, x: Grid, y: Grid, width: nat)
    requires IsArithmetic(op) && |args| == 2
    ensures Applied(k, op, args, [x, y], width) == Combined(k, op, x, y, width)
  {
  }

  lemma CombinedCell(k: Kernels, op: Operator, x: Grid, y: Grid, width: nat, t: int, c: int)
    requires 0 <= t < |x| && 0 <= c < width
    ensures CellAt(RowAt(Combined(k, op, x, y, width), t), c)
         == Arithmetic(k, op, CellAt(RowAt(x, t), c), CellAt(RowAt(y, t), c))
  {
  }

  lemma BinaryCell(k: Kernels, op: Operator, a: Expression, b: Expression, p: Panel, t: int, c: int)
    requires Defined(k, a, p) && Defined(k, b, p) && IsArithmetic(op) && InPanel(p, t, c)
    ensures Defined(k, Binary(op, a, b), p)
    ensures Cell(k, Binary(op, a, b), p, t, c) == Arithmetic(k, op, Cell(k, a, p, t, c), Cell(k, b, p, t, c))
  {
    BinaryEval(k, op, a, b, p);
    var x, y := Eval(k, a, p).value, Eval(k, b, p).value;
    AppliedArithmetic(k, op, [Nested(a), Nested(b)], x, y, p.width);
    CombinedCell(k, op, x, y, p.width, t, c);
  }

  ghost predicate Operands(k: Kernels, a: Expression, b: Expression, p: Panel, t: int, c: int) {
    Defined(k, a, p) && Defined(k, b, p) && InPanel(p, t, c)
  }

  /** Both numbers, or a NaN among them. */
  predicate Both(x: Value, y: Value) {
    x.Some? && y.Some?
  }

  predicate IsProduct(product: Value, x: Value, y: Value) {
    product == if Both(x, y) then Some(x.value * y.value) else None
  }

  /** A quotient exists exactly for present cells and a divisor that is not zero; times the divisor it is
      the dividend. */
  predicate IsQuotient(q: Value, x: Value, y: Value) {
    (q.Some? <==> Both(x, y) && y.value != 0.0) && (q.Some? ==> q.value * y.value == x.value)
  }

  /** A sum is the sum of two present cells. */
  lemma AddCells(k: Kernels, a: Expression, b: Expression, p: Panel, t: int, c: int)
    requires Operands(k, a, b, p, t, c)
    ensures var x, y := Cell(k, a, p, t, c), Cell(k, b, p, t, c);
      Cell(k, Binary(Add, a, b), p, t, c) == if Both(x, y) then Some(x.value + y.value) else None
  {
    BinaryCell(k, Add, a, b, p, t, c);
  }

  lemma SubCells(k: Kernels, a: Expression, b: Expression, p: Panel, t: int, c: int)
    requires Operands(k, a, b, p, t, c)
    ensures var x, y := Cell(k, a, p, t, c), Cell(k, b, p, t, c);
      Cell(k, Binary(Sub, a, b), p, t, c) == if Both(x, y) then Some(x.value - y.value) else None
  {
    BinaryCell(k, Sub, a, b, p, t, c);
  }

  lemma MulCells(k: Kernels, a: Expression, b: Expression, p: Panel, t: int, c: int)
    requires Operands(k, a, b, p, t, c)
    ensures IsProduct(Cell(k, Binary(Mul, a, b), p, t, c), Cell(k, a, p, t, c), Cell(k, b, p, t, c))
  {
    BinaryCell(k, Mul, a, b, p, t, c);
  }

  lemma DivCells(k: Kernels, a: Expression, b: Expression, p: Panel, t: int, c: int)
    requires Operands(k, a, b, p, t, c)
    ensures IsQuotient(Cell(k, Binary(Div, a, b), p, t, c), Cell(k, a, p, t, c), Cell(k, b, p, t, c))
  {
    BinaryCell(k, Div, a, b, p, t, c);
    QuotientBack(k, Cell(k, a, p, t, c), Cell(k, b, p, t, c));
  }

  lemma QuotientBack(k: Kernels, x: Value, y: Value)
    ensures IsQuotient(Arithmetic(k, Div, x, y), x, y)
  {
  }

  lemma PowerCells(k: Kernels, a: Expression, b: Expression, p: Panel, t: int, c: int)
    requires Operands(k, a, b, p, t, c)
    ensures Cell(k, Binary(Power, a, b), p, t, c) == k.power(Cell(k, a, p, t, c), Cell(k, b, p, t, c))
  {
    BinaryCell(k, Power, a, b, p, t, c);
  }

  /** Addition and multiplication commute, and a present cell less itself is zero. */
  lemma ArithmeticCommutes(k: Kernels, a: Expression, b: Expression, p: Panel, t: int, c: int)
    requires Operands(k, a, b, p, t, c)
    ensures Cell(k, Binary(Add, a, b), p, t, c) == Cell(k, Binary(Add, b, a), p, t, c)
    ensures Cell(k, Binary(Mul, a, b), p, t, c) == Cell(k, Binary(Mul, b, a), p, t, c)
    ensures Cell(k, a, p, t, c).Some? ==> Cell(k, Binary(Sub, a, a), p, t, c) == Some(0.0)
  {
    AddCells(k, a, b, p, t, c);
    AddCells(k, b, a, p, t, c);
    MulCells(k, a, b, p, t, c);
    MulCells(k, b, a, p, t, c);
    SubCells(k, a, a, p, t, c);
  }

  /** Subtracting a present cell undoes adding it. */
  lemma SubUndoesAdd(k: Kernels, a: Expression, b: Expression, p: Panel, t: int, c: int)
    requires Operands(k, a, b, p, t, c) && Cell(k, b, p, t, c).Some?
    ensures Cell(k, Binary(Sub, Binary(Add, a, b), b), p, t, c) == Cell(k, a, p, t, c)
  {
    BinaryCell(k, Add, a, b, p, t, c);
    AddCells(k, a, b, p, t, c);
    SubCells(k, Binary(Add, a, b), b, p, t, c);
  }

  /** Dividing by a present cell that is not zero undoes multiplying by it. */
  lemma DivUndoesMul(k: Kernels, a: Expression, b: Expression, p: Panel, t: int, c: int)
    requires Operands(k, a, b, p, t, c) && Cell(k, b, p, t, c).Some? && Cell(k, b, p, t, c).value != 0.0
    ensures Cell(k, Binary(Div, Binary(Mul, a, b), b), p, t, c) == Cell(k, a, p, t, c)
  {
    BinaryCell(k, Mul, a, b, p, t, c);
    MulCells(k, a, b, p, t, c);
    DivCells(k, Binary(Mul, a, b), b, p, t, c);
    Undone(Cell(k, a, p, t, c), Cell(k, b, p, t, c), Cell(k, Binary(Mul, a, b), p, t, c),
      Cell(k, Binary(Div, Binary(Mul, a, b), b), p, t, c));
  }

  lemma Undone(x: Value, y: Value, product: Value, q: Value)
    requires y.Some? && y.value != 0.0 && IsProduct(product, x, y) && IsQuotient(q, product, y)
    ensures q == x
  {
    if x.Some? {
      SameFactor(q.value, x.value, y.value);
    }
  }

  lemma SameFactor(q: real, x: real, y: real)
    requires y != 0.0 && q * y == x * y
    ensures q == x
  {
    assert (q - x) * y == 0.0;
  }

  // Cell by cell.

  lemma UnaryEval(k: Kernels, op: Operator, a: Expression, p: Panel)
    requires Defined(k, a, p) && op.Arity().0 == 1
    ensures Defined(k, Unary(op, a), p)
    ensures Eval(k, Unary(op, a), p) == Ok(Applied(k, op, [Nested(a)], [Eval(k, a, p).value], p.width))
  {
    var e := Unary(op, a);
    var none: seq<Grid> := [];
    assert e.args[0] == Nested(a);
    assert EvalArguments(k, e, p, 0) == Ok(none);
    assert none + [Eval(k, a, p).value] == [Eval(k, a, p).value];
    assert EvalArguments(k, e, p, 1) == Ok([Eval(k, a, p).value]);
    IsDefined(k, e, p);
  }

  lemma MappedCell(k: Kernels, op: Operator, a: Expression, p: Panel, t: int, c: int)
    requires Defined(k, a, p) && InPanel(p, t, c) && (op == Log || op == Abs || op == Sign)
    ensures Cell(k, Unary(op, a), p, t, c) == Elementwise(k, op, Cell(k, a, p, t, c))
  {
    UnaryEval(k, op, a, p);
  }

  /** An absolute value is not negative and is the cell or its opposite. */
  lemma AbsCells(k: Kernels, a: Expression, p: Panel, t: int, c: int)
    requires Defined(k, a, p) && InPanel(p, t, c)
    ensures var x, abs := Cell(k, a, p, t, c), Cell(k, Unary(Abs, a), p, t, c);
      && (abs.Some? <==> x.Some?)
      && (x.Some? ==> 0.0 <= abs.value && (abs.value == x.value || abs.value == -x.value))
  {
    MappedCell(k, Abs, a, p, t, c);
  }

  /** A sign is -1, 0 or 1, and times the absolute value it is the cell. */
  lemma SignCells(k: Kernels, a: Expression, p: Panel, t: int, c: int)
    requires Defined(k, a, p) && InPanel(p, t, c)
    ensures var x, sign, abs := Cell(k, a, p, t, c), Cell(k, Unary(Sign, a), p, t, c), Cell(k, Unary(Abs, a), p, t, c);
      && (sign.Some? <==> x.Some?)
      && (x.Some? ==>
           && (sign.value == -1.0 || sign.value == 0.0 || sign.value == 1.0)
           && (sign.value == 0.0 <==> x.value == 0.0) && abs.Some? && sign.value * abs.value == x.value)
  {
    MappedCell(k, Sign, a, p, t, c);
    MappedCell(k, Abs, a, p, t, c);
  }

  /** Exactly the positive cells have a logarithm, the kernel's. */
  lemma LogCells(k: Kernels, a: Expression, p: Panel, t: int, c: int)
    requires Defined(k, a, p) && InPanel(p, t, c)
    ensures var x := Cell(k, a, p, t, c);
      Cell(k, Unary(Log, a), p, t, c) == if x.Some? && 0.0 < x.value then k.ln(x.value) else None
  {
    MappedCell(k, Log, a, p, t, c);
  }

  // Along time.

  lemma WindowedEval(k: Kernels, op: Operator, a: Expression, n: nat, p: Panel) returns (second: Grid)
    requires Defined(k, a, p) && op.TakesWindow() && op.Arity() == (2, 2) && 0 < n < k.floatLimit
    ensures Defined(k, Windowed(op, a, n), p)
    ensures Eval(k, Windowed(op, a, n), p)
         == Ok(Applied(k, op, [Nested(a), IntArg(n)], [Eval(k, a, p).value, second], p.width))
  {
    var e := Windowed(op, a, n);
    assert e.args[0] == Nested(a) && e.args[1] == IntArg(n);
    TwoEvaluate(k, e, p);
    IsDefined(k, e, p);
    second := EvalArgument(k, e, p, 1).value;
  }

  lemma WindowIs(a: Expression, n: nat)
    requires 0 < n
    ensures WindowOf([Nested(a), IntArg(n)]) == n
  {
    assert [Nested(a), IntArg(n)][1] == IntArg(n);
  }

  lemma ShiftedCell(g: Grid, n: nat, width: nat, t: int, c: int)
    requires 0 <= t < |g| && 0 <= c < width
    ensures CellAt(RowAt(Shifted(g, n, width), t), c) == if n <= t then CellAt(RowAt(g, t - n), c) else None
  {
    assert RowAt(Shifted(g, n, width), t) == if t < n then NanRow(width) else RowAt(g, t - n);
    assert CellAt(NanRow(width), c) == None;
  }

  lemma Difference(k: Kernels, x: Value, y: Value)
    ensures var d := Arithmetic(k, Sub, x, y);
      (d.Some? <==> Both(x, y)) && (d.Some? ==> d.value + y.value == x.value)
  {
  }

  /** A reference is the cell n rows earlier. */
  lemma RefCells(k: Kernels, a: Expression, n: nat, p: Panel, t: int, c: int)
    requires Defined(k, a, p) && 0 < n < k.floatLimit && InPanel(p, t, c)
    ensures Cell(k, Windowed(Ref, a, n), p, t, c) == if n <= t then Cell(k, a, p, t - n, c) else None
  {
    var second := WindowedEval(k, Ref, a, n, p);
    WindowIs(a, n);
    ShiftedCell(Eval(k, a, p).value, n, p.width, t, c);
  }

  /** A delta and the cell n rows earlier add up to the present cell. */
  lemma DeltaCells(k: Kernels, a: Expression, n: nat, p: Panel, t: int, c: int)
    requires Defined(k, a, p) && 0 < n < k.floatLimit && InPanel(p, t, c)
    ensures var x, earlier, delta := Cell(k, a, p, t, c), Cell(k, a, p, t - n, c),
      Cell(k, Windowed(Delta, a, n), p, t, c);
      && (delta.Some? <==> n <= t && x.Some? && earlier.Some?)
      && (delta.Some? ==> delta.value + earlier.value == x.value)
  {
    var second := WindowedEval(k, Delta, a, n, p);
    var g := Eval(k, a, p).value;
    WindowIs(a, n);
    assert Applied(k, Delta, [Nested(a), IntArg(n)], [g, second], p.width)
      == Combined(k, Sub, g, Shifted(g, n, p.width), p.width);
    CombinedCell(k, Sub, g, Shifted(g, n, p.width), p.width, t, c);
    ShiftedCell(g, n, p.width, t, c);
    Difference(k, Cell(k, a, p, t, c), if n <= t then Cell(k, a, p, t - n, c) else None);
  }

  /** The n cells up to time t, oldest first. */
  ghost function Past(k: Kernels, a: Expression, p: Panel, t: int, c: int, n: nat): Row {
    seq(n, i => Cell(k, a, p, t + 1 - n + i, c))
  }

  /** The n cells up to time t are all numbers. */
  ghost predicate AllPresent(k: Kernels, a: Expression, p: Panel, t: int, c: int, n: nat) {
    forall i :: t - n < i <= t ==> Cell(k, a, p, i, c).Some?
  }

  lemma WindowColumn(g: Grid, t: int, n: nat, c: int)
    requires n - 1 <= t < |g|
    ensures Column(Window(g, t, n), c) == seq(n, i => CellAt(RowAt(g, t + 1 - n + i), c))
  {
    var window := Window(g, t, n);
    forall i | 0 <= i < n
      ensures Column(window, c)[i] == CellAt(RowAt(g, t + 1 - n + i), c)
    {
      assert window[i] == g[t + 1 - n + i];
    }
  }

  predicate IsRolling(op: Operator) {
    op == Mean || op == Sum || op == Std || op == Min || op == Max || op == RankTS
  }

  lemma AppliedRolling(k: Kernels, op: Operator, args: seq<Argument>, x: Grid, y: Grid, width: nat)
    requires IsRolling(op) && |args| == 2
    ensures Applied(k, op, args, [x, y], width) == Rolled(k, op, x, WindowOf(args), width)
  {
  }

  lemma RolledGridCell(k: Kernels, op: Operator, g: Grid, n: nat, width: nat, t: int, c: int)
    requires 0 <= t < |g| && 0 <= c < width && 0 < n
    ensures CellAt(RowAt(Rolled(k, op, g, n, width), t), c)
         == if t < n - 1 then None else Rolling(k, op, Column(Window(g, t, n), c))
  {
    assert RowAt(Rolled(k, op, g, n, width), t)
      == if t < n - 1 then NanRow(width) else RolledRow(k, op, Window(g, t, n), width);
    assert CellAt(NanRow(width), c) == None;
  }

  lemma RolledCell(k: Kernels, op: Operator, a: Expression, n: nat, p: Panel, t: int, c: int)
    requires Defined(k, a, p) && IsRolling(op) && 0 < n < k.floatLimit && InPanel(p, t, c)
    ensures Cell(k, Windowed(op, a, n), p, t, c)
         == if t < n - 1 then None else Rolling(k, op, Past(k, a, p, t, c, n))
  {
    var g, args := Eval(k, a, p).value, [Nested(a), IntArg(n)];
    var second := WindowedEval(k, op, a, n, p);
    WindowIs(a, n);
    AppliedRolling(k, op, args, g, second, p.width);
    RolledGridCell(k, op, g, n, p.width, t, c);
    if n - 1 <= t {
      WindowColumn(g, t, n, c);
      PastColumn(k, a, p, t, c, n);
    }
  }

  lemma PastColumn(k: Kernels, a: Expression, p: Panel, t: int, c: int, n: nat)
    requires Defined(k, a, p)
    ensures Past(k, a, p, t, c, n) == seq(n, i => CellAt(RowAt(Eval(k, a, p).value, t + 1 - n + i), c))
  {
    var g := Eval(k, a, p).value;
    forall i | 0 <= i < n
      ensures Past(k, a, p, t, c, n)[i] == CellAt(RowAt(g, t + 1 - n + i), c)
    {
      CellOf(k, a, p, t + 1 - n + i, c);
    }
  }

  lemma CellOf(k: Kernels, a: Expression, p: Panel, t: int, c: int)
    requires Defined(k, a, p)
    ensures Cell(k, a, p, t, c) == CellAt(RowAt(Eval(k, a, p).value, t), c)
  {
  }

  lemma PastNan(k: Kernels, a: Expression, p: Panel, t: int, c: int, n: nat)
    ensures HasNan(Past(k, a, p, t, c, n)) <==> !AllPresent(k, a, p, t, c, n)
  {
    var past := Past(k, a, p, t, c, n);
    if !AllPresent(k, a, p, t, c, n) {
      var i :| t - n < i <= t && Cell(k, a, p, i, c).None?;
      assert past[i - (t + 1 - n)].None?;
    }
  }

  lemma {:induction false} ExtremeBounds(column: Row, least: bool)
    requires column != [] && !HasNan(column)
    ensures Extreme(column, least).Some? && Extreme(column, least) in column
    ensures forall v :: v in column ==>
      v.Some? && if least then Extreme(column, least).value <= v.value else v.value <= Extreme(column, least).value
  {
    var init, last := column[..|column| - 1], column[|column| - 1];
    assert column == init + [last];
    NanNext(init, last);
    if |column| > 1 {
      ExtremeBounds(init, least);
    }
  }

  lemma PastAt(k: Kernels, a: Expression, p: Panel, t: int, c: int, n: nat, i: int)
    requires t - n < i <= t
    ensures Past(k, a, p, t, c, n)[i - (t + 1 - n)] == Cell(k, a, p, i, c)
  {
  }

  lemma {:induction false} PastCells(k: Kernels, a: Expression, p: Panel, t: int, c: int, n: nat, v: Value)
    ensures v in Past(k, a, p, t, c, n) <==> exists i :: t - n < i <= t && v == Cell(k, a, p, i, c)
  {
    var past := Past(k, a, p, t, c, n);
    if v in past {
      var i :| 0 <= i < n && past[i] == v;
      PastAt(k, a, p, t, c, n, t + 1 - n + i);
    }
    if i :| t - n < i <= t && v == Cell(k, a, p, i, c) {
      PastAt(k, a, p, t, c, n, i);
    }
  }

  /** The least cell of a complete window without NaN is one of its cells and at most each of them. */
  lemma MinCells(k: Kernels, a: Expression, n: nat, p: Panel, t: int, c: int)
    requires Defined(k, a, p) && 0 < n < k.floatLimit && InPanel(p, t, c)
    ensures var min := Cell(k, Windowed(Min, a, n), p, t, c);
      && (min.Some? <==> n - 1 <= t && AllPresent(k, a, p, t, c, n))
      && (min.Some? ==>
           && (exists i :: t - n < i <= t && min == Cell(k, a, p, i, c))
           && (forall i :: t - n < i <= t ==> Cell(k, a, p, i, c).Some? && min.value <= Cell(k, a, p, i, c).value))
  {
    RolledCell(k, Min, a, n, p, t, c);
    ExtremePast(k, a, p, t, c, n, true);
  }

  /** The greatest likewise. */
  lemma MaxCells(k: Kernels, a: Expression, n: nat, p: Panel, t: int, c: int)
    requires Defined(k, a, p) && 0 < n < k.floatLimit && InPanel(p, t, c)
    ensures var max := Cell(k, Windowed(Max, a, n), p, t, c);
      && (max.Some? <==> n - 1 <= t && AllPresent(k, a, p, t, c, n))
      && (max.Some? ==>
           && (exists i :: t - n < i <= t && max == Cell(k, a, p, i, c))
           && (forall i :: t - n < i <= t ==> Cell(k, a, p, i, c).Some? && Cell(k, a, p, i, c).value <= max.value))
  {
    RolledCell(k, Max, a, n, p, t, c);
    ExtremePast(k, a, p, t, c, n, false);
  }

  predicate Bounds(v: Value, bound: Value, least: bool) {
    Both(v, bound) && if least then bound.value <= v.value else v.value <= bound.value
  }

  lemma ExtremePast(k: Kernels, a: Expression, p: Panel, t: int, c: int, n: nat, least: bool)
    requires 0 < n
    ensures var extreme := Extreme(Past(k, a, p, t, c, n), least);
      && (extreme.Some? <==> AllPresent(k, a, p, t, c, n))
      && (extreme.Some? ==>
           && (exists i :: t - n < i <= t && extreme == Cell(k, a, p, i, c))
           && (forall i :: t - n < i <= t ==> Bounds(Cell(k, a, p, i, c), extreme, least)))
  {
    var past := Past(k, a, p, t, c, n);
    PastNan(k, a, p, t, c, n);
    ExtremeNan(past, least);
    if !HasNan(past) {
      ExtremeBounds(past, least);
      PastCells(k, a, p, t, c, n, Extreme(past, least));
      forall i | t - n < i <= t
        ensures Bounds(Cell(k, a, p, i, c), Extreme(past, least), least)
      {
        PastCells(k, a, p, t, c, n, Cell(k, a, p, i, c));
      }
    }
  }

  lemma PastNext(k: Kernels, a: Expression, p: Panel, t: int, c: int, n: nat)
    ensures Past(k, a, p, t, c, n + 1) == Past(k, a, p, t - 1, c, n) + [Cell(k, a, p, t, c)]
  {
  }

  lemma SumNext(column: Row, last: Value)
    ensures SumOf(column + [last])
         == if SumOf(column).None? || last.None? then None else Some(SumOf(column).value + last.value)
  {
    assert (column + [last])[..|column|] == column;
  }

  /** A sum is NaN exactly when some cell is missing or the window is not complete; the sum of one cell is the cell. */
  lemma SumCells(k: Kernels, a: Expression, n: nat, p: Panel, t: int, c: int)
    requires Defined(k, a, p) && 0 < n < k.floatLimit && InPanel(p, t, c)
    ensures Cell(k, Windowed(Sum, a, n), p, t, c).Some? <==> n - 1 <= t && AllPresent(k, a, p, t, c, n)
    ensures n == 1 ==> Cell(k, Windowed(Sum, a, n), p, t, c) == Cell(k, a, p, t, c)
  {
    RolledCell(k, Sum, a, n, p, t, c);
    PastNan(k, a, p, t, c, n);
    SumNan(Past(k, a, p, t, c, n));
    PastNext(k, a, p, t, c, n - 1);
    SumNext(Past(k, a, p, t - 1, c, n - 1), Cell(k, a, p, t, c));
  }

  predicate IsTotal(total: Value, x: Value, y: Value) {
    total == if Both(x, y) then Some(x.value + y.value) else None
  }

  lemma PastSum(k: Kernels, a: Expression, p: Panel, t: int, c: int, n: nat)
    ensures IsTotal(SumOf(Past(k, a, p, t, c, n + 1)), SumOf(Past(k, a, p, t - 1, c, n)), Cell(k, a, p, t, c))
  {
    PastNext(k, a, p, t, c, n);
    SumNext(Past(k, a, p, t - 1, c, n), Cell(k, a, p, t, c));
  }

  lemma RolledSum(k: Kernels, a: Expression, n: nat, p: Panel, t: int, c: int)
    requires Defined(k, a, p) && 0 < n < k.floatLimit && InPanel(p, t, c) && n - 1 <= t
    ensures Cell(k, Windowed(Sum, a, n), p, t, c) == SumOf(Past(k, a, p, t, c, n))
  {
    RolledCell(k, Sum, a, n, p, t, c);
  }

  /** A window longer by its last cell adds that cell to the sum. */
  lemma SumExtends(k: Kernels, a: Expression, n: nat, p: Panel, t: int, c: int)
    requires Defined(k, a, p) && 0 < n && n + 1 < k.floatLimit && n <= t && InPanel(p, t, c)
    ensures var longer, shorter := Cell(k, Windowed(Sum, a, n + 1), p, t, c), Cell(k, Windowed(Sum, a, n), p, t - 1, c);
      IsTotal(longer, shorter, Cell(k, a, p, t, c))
  {
    RolledSum(k, a, n + 1, p, t, c);
    RolledSum(k, a, n, p, t - 1, c);
    PastSum(k, a, p, t, c, n);
  }

  predicate IsMean(mean: Value, sum: Value, n: nat) {
    (mean.Some? <==> sum.Some?) && (sum.Some? ==> mean.value * n as real == sum.value)
  }

  /** The window size times the mean is the sum. */
  lemma MeanCells(k: Kernels, a: Expression, n: nat, p: Panel, t: int, c: int)
    requires Defined(k, a, p) && 0 < n < k.floatLimit && InPanel(p, t, c)
    ensures IsMean(Cell(k, Windowed(Mean, a, n), p, t, c), Cell(k, Windowed(Sum, a, n), p, t, c), n)
  {
    RolledCell(k, Sum, a, n, p, t, c);
    RolledCell(k, Mean, a, n, p, t, c);
    MeanTimesSize(k, Past(k, a, p, t, c, n), n);
  }

  lemma MeanTimesSize(k: Kernels, column: Row, n: nat)
    requires 0 < n == |column|
    ensures IsMean(Rolling(k, Mean, column), Rolling(k, Sum, column), n)
  {
  }

  predicate AtMost(v: Value, bound: Value) {
    v.Some? && bound.Some? && v.value <= bound.value
  }

  ghost function AtMostBound(column: Row, bound: Value): set<int> {
    set i | 0 <= i < |column| && AtMost(column[i], bound)
  }

  lemma {:induction false} CountIsSize(column: Row, bound: Value)
    ensures CountAtMost(column, bound) == |AtMostBound(column, bound)|
  {
    if column != [] {
      var init, last := column[..|column| - 1], column[|column| - 1];
      CountIsSize(init, bound);
      assert AtMostBound(column, bound)
        == AtMostBound(init, bound) + if AtMost(last, bound) then {|column| - 1} else {};
    }
  }

  /** The times in the window at which the cell is at most the last. */
  ghost function NotAbove(k: Kernels, a: Expression, p: Panel, t: int, c: int, n: nat): set<int> {
    set i | t - n < i <= t && AtMost(Cell(k, a, p, i, c), Cell(k, a, p, t, c))
  }

  lemma SameSize(positions: set<int>, times: set<int>, offset: int)
    requires forall i :: i in positions <==> i + offset in times
    ensures |positions| == |times|
    decreases positions
  {
    if positions != {} {
      var i := Ordering.Pick(positions);
      SameSize(positions - {i}, times - {i + offset}, offset);
    } else {
      forall j
        ensures j !in times
      {
        assert j - offset !in positions && (j - offset) + offset == j;
      }
    }
  }

  lemma BoundIsTimes(k: Kernels, a: Expression, p: Panel, t: int, c: int, n: nat)
    ensures forall i ::
      i in AtMostBound(Past(k, a, p, t, c, n), Cell(k, a, p, t, c)) <==> i + (t + 1 - n) in NotAbove(k, a, p, t, c, n)
  {
    var past, last := Past(k, a, p, t, c, n), Cell(k, a, p, t, c);
    forall i
      ensures i in AtMostBound(past, last) <==> i + (t + 1 - n) in NotAbove(k, a, p, t, c, n)
    {
      if 0 <= i < n {
        assert past[i] == Cell(k, a, p, i + (t + 1 - n), c);
      }
    }
  }

  lemma CountIsTimes(k: Kernels, a: Expression, p: Panel, t: int, c: int, n: nat)
    requires 0 < n
    ensures CountAtMost(Past(k, a, p, t, c, n), Cell(k, a, p, t, c)) == |NotAbove(k, a, p, t, c, n)|
  {
    var past, last := Past(k, a, p, t, c, n), Cell(k, a, p, t, c);
    CountIsSize(past, last);
    BoundIsTimes(k, a, p, t, c, n);
    SameSize(AtMostBound(past, last), NotAbove(k, a, p, t, c, n), t + 1 - n);
  }

  lemma ShareTimesSize(k: Kernels, column: Row, n: nat)
    requires 0 < n == |column|
    ensures var rank := Rolling(k, RankTS, column);
      rank.Some? && IsShare(rank.value, CountAtMost(column, column[n - 1]), n)
  {
    var count := CountAtMost(column, column[n - 1]) as real;
    assert count / n as real * n as real == count;
  }

  predicate IsShare(share: real, count: nat, n: nat) {
    share * n as real == count as real
  }

  /** The window size times the time-series rank is how many of its times hold at most the last cell. */
  lemma RankCells(k: Kernels, a: Expression, n: nat, p: Panel, t: int, c: int)
    requires Defined(k, a, p) && 0 < n < k.floatLimit && InPanel(p, t, c)
    ensures var rank := Cell(k, Windowed(RankTS, a, n), p, t, c);
      (rank.Some? <==> n - 1 <= t) && (rank.Some? ==> IsShare(rank.value, |NotAbove(k, a, p, t, c, n)|, n))
  {
    RolledCell(k, RankTS, a, n, p, t, c);
    RankPast(k, a, p, t, c, n);
  }

  lemma RankPast(k: Kernels, a: Expression, p: Panel, t: int, c: int, n: nat)
    requires 0 < n
    ensures var rank := Rolling(k, RankTS, Past(k, a, p, t, c, n));
      rank.Some? && IsShare(rank.value, |NotAbove(k, a, p, t, c, n)|, n)
  {
    var past := Past(k, a, p, t, c, n);
    assert past[n - 1] == Cell(k, a, p, t, c);
    CountIsTimes(k, a, p, t, c, n);
    ShareTimesSize(k, past, n);
  }

  /** A rolling deviation is the kernel's of exactly the window's cells. */
  lemma DeviationCells(k: Kernels, a: Expression, n: nat, p: Panel, t: int, c: int)
    requires Defined(k, a, p) && 0 < n < k.floatLimit && InPanel(p, t, c)
    ensures Cell(k, Windowed(Std, a, n), p, t, c) == if t < n - 1 then None else k.std(Past(k, a, p, t, c, n))
  {
    RolledCell(k, Std, a, n, p, t, c);
  }
}
