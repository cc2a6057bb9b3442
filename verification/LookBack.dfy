/** Causality and bounded look-back of factor expressions, and what evaluation depends on. */
module LookBack {
  import opened Wrappers
  import opened Dsl
  import opened Evaluator

  /** How many rows back the outermost operator reaches. */
  function Reach(op: Operator, args: seq<Argument>): nat {
    if op == Ref || op == Delta then WindowOf(args)
    else if op.TakesWindow() then WindowOf(args) - 1
    else 0
  }

  /** How many earlier rows a row of the result can depend on. */
  function LookBack(e: Expression): nat
    decreases e, 1
  {
    if e.Field? then 0 else Reach(e.op, e.args) + ArgumentsLookBack(e, |e.args|)
  }

  function ArgumentsLookBack(e: Expression, n: nat): nat
    requires e.Apply? && n <= |e.args|
    decreases e, 0, n
  {
    if n == 0 then 0
    else
      var earlier := ArgumentsLookBack(e, n - 1);
      var last := ArgumentLookBack(e, n - 1);
      if earlier < last then last else earlier
  }

  function ArgumentLookBack(e: Expression, i: nat): nat
    requires e.Apply? && i < |e.args|
    decreases e, 0, i
  {
    if e.args[i].Nested? then LookBack(e.args[i].expression) else 0
  }

  /** Rows a (included) to b (excluded) of a panel. */
  ghost function Slice(p: Panel, a: nat, b: nat): Panel
    requires p.Valid() && a <= b <= p.height
  {
    Panel(b - a, p.width, map f | f in p.fields :: p.fields[f][a..b])
  }

  /** The first row of a slice that sees all the history it needs. A slice from the start misses nothing. */
  function From(a: nat, lookBack: nat): nat {
    if a == 0 then 0 else a + lookBack
  }

  ghost predicate SameRow(part: Grid, whole: Grid, a: nat, t: int) {
    a <= t < |whole| && t - a < |part| && part[t - a] == whole[t]
  }

  /** `part` repeats rows `from` to b of `whole`, numbered from a. */
  ghost predicate Repeats(part: Grid, whole: Grid, a: nat, b: nat, from: nat) {
    && a <= b <= |whole| && |part| == b - a && a <= from
    && forall t {:trigger SameRow(part, whole, a, t)} :: from <= t < b ==> SameRow(part, whole, a, t)
  }

  lemma RepeatsLater(part: Grid, whole: Grid, a: nat, b: nat, from: nat, later: nat)
    requires Repeats(part, whole, a, b, from) && from <= later
    ensures Repeats(part, whole, a, b, later)
  {
    forall t | later <= t < b
      ensures SameRow(part, whole, a, t)
    {
      assert SameRow(part, whole, a, t);
    }
  }

  lemma EachRepeats(f: Row -> Row, part: Grid, whole: Grid, a: nat, b: nat, from: nat)
    requires Repeats(part, whole, a, b, from)
    ensures Repeats(Each(f, part), Each(f, whole), a, b, from)
  {
    var x, y := Each(f, part), Each(f, whole);
    forall t | from <= t < b
      ensures SameRow(x, y, a, t)
    {
      assert SameRow(part, whole, a, t);
      assert x[t - a] == f(RowAt(part, t - a)) == f(RowAt(whole, t)) == y[t];
    }
  }

  lemma ZippedRepeats(f: (Row, Row) -> Row, x: Grid, y: Grid, u: Grid, v: Grid, a: nat, b: nat, from: nat)
    requires Repeats(x, u, a, b, from) && Repeats(y, v, a, b, from) && |u| == |v|
    ensures Repeats(Zipped(f, x, y), Zipped(f, u, v), a, b, from)
  {
    var part, whole := Zipped(f, x, y), Zipped(f, u, v);
    forall t | from <= t < b
      ensures SameRow(part, whole, a, t)
    {
      assert SameRow(x, u, a, t) && SameRow(y, v, a, t);
      assert part[t - a] == f(RowAt(x, t - a), RowAt(y, t - a)) == f(RowAt(u, t), RowAt(v, t)) == whole[t];
    }
  }

  lemma ShiftedRepeats(part: Grid, whole: Grid, periods: nat, width: nat, a: nat, b: nat, lookBack: nat)
    requires Repeats(part, whole, a, b, From(a, lookBack))
    ensures Repeats(Shifted(part, periods, width), Shifted(whole, periods, width), a, b, From(a, lookBack + periods))
  {
    var x, y := Shifted(part, periods, width), Shifted(whole, periods, width);
    forall t | From(a, lookBack + periods) <= t < b
      ensures SameRow(x, y, a, t)
    {
      if periods <= t {
        assert SameRow(part, whole, a, t - periods);
        assert x[t - a] == RowAt(part, t - a - periods) == RowAt(whole, t - periods) == y[t];
      } else {
        assert x[t - a] == NanRow(width) == y[t];
      }
    }
  }

  /** The windows ending at a row agree when every row they cover does. */
  lemma WindowRepeats(part: Grid, whole: Grid, window: nat, a: nat, b: nat, from: nat, t: nat)
    requires Repeats(part, whole, a, b, from) && from + window <= t + 1 && t < b
    ensures Window(part, t - a, window) == Window(whole, t, window)
  {
    var x, y := Window(part, t - a, window), Window(whole, t, window);
    forall i | 0 <= i < window
      ensures x[i] == y[i]
    {
      assert SameRow(part, whole, a, t + 1 - window + i);
    }
  }

  lemma TrailingRepeats(f: Grid -> Row, part: Grid, whole: Grid, window: nat, width: nat, a: nat, b: nat, lookBack: nat)
    requires Repeats(part, whole, a, b, From(a, lookBack)) && 0 < window
    ensures Repeats(Trailing(f, part, window, width), Trailing(f, whole, window, width), a, b,
      From(a, lookBack + window - 1))
  {
    forall t | From(a, lookBack + window - 1) <= t < b
      ensures SameRow(Trailing(f, part, window, width), Trailing(f, whole, window, width), a, t)
    {
      if window - 1 <= t {
        WindowRepeats(part, whole, window, a, b, From(a, lookBack), t);
      }
    }
  }

  lemma TrailingPairRepeats(f: (Grid, Grid) -> Row, x: Grid, y: Grid, u: Grid, v: Grid, window: nat, width: nat,
                            a: nat, b: nat, lookBack: nat)
    requires Repeats(x, u, a, b, From(a, lookBack)) && Repeats(y, v, a, b, From(a, lookBack)) && 0 < window
      && |u| == |v|
    ensures Repeats(TrailingPair(f, x, y, window, width), TrailingPair(f, u, v, window, width), a, b,
      From(a, lookBack + window - 1))
  {
    forall t | From(a, lookBack + window - 1) <= t < b
      ensures SameRow(TrailingPair(f, x, y, window, width), TrailingPair(f, u, v, window, width), a, t)
    {
      if window - 1 <= t {
        WindowRepeats(x, u, window, a, b, From(a, lookBack), t);
        WindowRepeats(y, v, window, a, b, From(a, lookBack), t);
      }
    }
  }

  lemma CombinedRepeats(k: Kernels, op: Operator, x: Grid, y: Grid, u: Grid, v: Grid, width: nat, a: nat,
      b: nat, from: nat)
    requires Repeats(x, u, a, b, from) && Repeats(y, v, a, b, from) && |u| == |v|
    ensures Repeats(Combined(k, op, x, y, width), Combined(k, op, u, v, width), a, b, from)
  {
    ZippedRepeats((r, s) => CombinedRow(k, op, r, s, width), x, y, u, v, a, b, from);
  }

  lemma FullRepeats(height: nat, width: nat, v: Value, a: nat, b: nat)
    requires a <= b <= height
    ensures Repeats(Full(b - a, width, v), Full(height, width, v), a, b, a)
  {
    var part, whole := Full(b - a, width, v), Full(height, width, v);
    forall t | a <= t < b
      ensures SameRow(part, whole, a, t)
    {
    }
  }

  ghost predicate AllRepeat(parts: seq<Grid>, wholes: seq<Grid>, height: nat, a: nat, b: nat, from: nat) {
    && |parts| == |wholes| && a <= b <= height
    && forall i :: 0 <= i < |parts| ==> |wholes[i]| == height && Repeats(parts[i], wholes[i], a, b, from)
  }

  /** One more argument, with a look-back of its own. */
  lemma AllRepeatNext(parts: seq<Grid>, part: Grid, wholes: seq<Grid>, whole: Grid, height: nat, a: nat, b: nat,
                      lookBack: nat, last: nat)
    requires AllRepeat(parts, wholes, height, a, b, From(a, lookBack))
    requires |whole| == height && Repeats(part, whole, a, b, From(a, last))
    ensures AllRepeat(parts + [part], wholes + [whole], height, a, b,
      From(a, if lookBack < last then last else lookBack))
  {
    var from := From(a, if lookBack < last then last else lookBack);
    RepeatsLater(part, whole, a, b, From(a, last), from);
    forall i | 0 <= i < |parts|
      ensures Repeats(parts[i], wholes[i], a, b, from)
    {
      RepeatsLater(parts[i], wholes[i], a, b, From(a, lookBack), from);
    }
  }

  lemma WindowedRepeats(k: Kernels, op: Operator, args: seq<Argument>, parts: seq<Grid>, wholes: seq<Grid>, width: nat,
                        height: nat, a: nat, b: nat, lookBack: nat)
    requires op.Arity().0 <= |args| == |parts| && AllRepeat(parts, wholes, height, a, b, From(a, lookBack))
      && op.TakesWindow()
    ensures Repeats(Applied(k, op, args, parts, width), Applied(k, op, args, wholes, width), a, b,
      From(a, lookBack + Reach(op, args)))
    ensures |Applied(k, op, args, wholes, width)| == height
  {
    var w, from := WindowOf(args), From(a, lookBack);
    if op == Ref || op == Delta {
      ShiftedRepeats(parts[0], wholes[0], w, width, a, b, lookBack);
      if op == Delta {
        RepeatsLater(parts[0], wholes[0], a, b, from, From(a, lookBack + w));
        CombinedRepeats(k, Sub, parts[0], Shifted(parts[0], w, width), wholes[0], Shifted(wholes[0], w, width), width,
          a, b, From(a, lookBack + w));
      }
    } else if op == Corr || op == Cov {
      TrailingPairRepeats((x, y) => PairRow(k, op, x, y, width), parts[0], parts[1], wholes[0], wholes[1], w, width,
        a, b, lookBack);
    } else {
      TrailingRepeats(sample => RolledRow(k, op, sample, width), parts[0], wholes[0], w, width, a, b, lookBack);
    }
  }

  /** Operators that work row by row look at no other row. */
  lemma RowwiseRepeats(k: Kernels, op: Operator, args: seq<Argument>, parts: seq<Grid>, wholes: seq<Grid>, width: nat,
                       height: nat, a: nat, b: nat, from: nat)
    requires op.Arity().0 <= |args| == |parts| && AllRepeat(parts, wholes, height, a, b, from)
    requires !op.TakesWindow() && op != Add && op != Sub && op != Mul && op != Div && op != Power
    ensures Repeats(Applied(k, op, args, parts, width), Applied(k, op, args, wholes, width), a, b, from)
    ensures |Applied(k, op, args, wholes, width)| == height
  {
    if op == Log || op == Abs || op == Sign {
      EachRepeats(x => MappedRow(k, op, x, width), parts[0], wholes[0], a, b, from);
    } else if op == RankCS || op == ZScore || op == Winsorize {
      var limit := LimitOf(k, args);
      EachRepeats(x => CrossRow(k, op, x, limit), parts[0], wholes[0], a, b, from);
    } else {
      ZippedRepeats((x, y) => NeutralRow(k, x, y), parts[0], parts[1], wholes[0], wholes[1], a, b, from);
    }
  }

  /** Each operator looks back no further than its reach. */
  lemma AppliedRepeats(k: Kernels, op: Operator, args: seq<Argument>, parts: seq<Grid>, wholes: seq<Grid>, width: nat,
                       height: nat, a: nat, b: nat, lookBack: nat)
    requires op.Arity().0 <= |args| == |parts| && AllRepeat(parts, wholes, height, a, b, From(a, lookBack))
    ensures Repeats(Applied(k, op, args, parts, width), Applied(k, op, args, wholes, width), a, b,
      From(a, lookBack + Reach(op, args)))
    ensures |Applied(k, op, args, wholes, width)| == height
  {
    var from := From(a, lookBack);
    if op.TakesWindow() {
      WindowedRepeats(k, op, args, parts, wholes, width, height, a, b, lookBack);
    } else if op == Add || op == Sub || op == Mul || op == Div || op == Power {
      CombinedRepeats(k, op, parts[0], parts[1], wholes[0], wholes[1], width, a, b, from);
    } else {
      RowwiseRepeats(k, op, args, parts, wholes, width, height, a, b, from);
    }
  }

  /** Bounded look-back: on rows a to b of a panel, an expression computes what it computes on the
      whole panel, for every row from a + LookBack(e) on, and for every row when a is 0. */
  lemma {:induction false} BoundedLookBack(k: Kernels, e: Expression, p: Panel, a: nat, b: nat)
    requires p.Valid() && WellFormed(e) && a <= b <= p.height
    ensures Eval(k, e, p).Ok? == Eval(k, e, Slice(p, a, b)).Ok?
    ensures Eval(k, e, p).Err? ==> Eval(k, e, Slice(p, a, b)) == Eval(k, e, p)
    ensures Eval(k, e, p).Ok? ==> |Eval(k, e, p).value| == p.height
    ensures Eval(k, e, p).Ok? ==> Repeats(Eval(k, e, Slice(p, a, b)).value, Eval(k, e, p).value, a, b,
      From(a, LookBack(e)))
    decreases e, 1
  {
    var part := Slice(p, a, b);
    match e
    case Field(name) =>
      if name in p.fields {
        forall t | a <= t < b
          ensures SameRow(part.fields[name], p.fields[name], a, t)
        {
        }
      }
    case Apply(op, args) =>
      ArgumentsLookBackBounded(k, e, p, a, b, |args|);
      if EvalArguments(k, e, p, |args|).Ok? {
        AppliedRepeats(k, op, args, EvalArguments(k, e, part, |args|).value, EvalArguments(k, e, p, |args|).value,
          p.width, p.height, a, b, ArgumentsLookBack(e, |args|));
      }
  }

  lemma {:induction false} ArgumentsLookBackBounded(k: Kernels, e: Expression, p: Panel, a: nat, b: nat, n: nat)
    requires p.Valid() && WellFormed(e) && a <= b <= p.height && e.Apply? && n <= |e.args|
    ensures EvalArguments(k, e, p, n).Ok? == EvalArguments(k, e, Slice(p, a, b), n).Ok?
    ensures EvalArguments(k, e, p, n).Err? ==> EvalArguments(k, e, Slice(p, a, b), n) == EvalArguments(k, e, p, n)
    ensures EvalArguments(k, e, p, n).Ok? ==>
      AllRepeat(EvalArguments(k, e, Slice(p, a, b), n).value, EvalArguments(k, e, p, n).value, p.height,
                a, b, From(a, ArgumentsLookBack(e, n)))
    decreases e, 0, n
  {
    if n > 0 {
      ArgumentsLookBackBounded(k, e, p, a, b, n - 1);
      ArgumentLookBackBounded(k, e, p, a, b, n - 1);
      if EvalArguments(k, e, p, n).Ok? {
        AllRepeatNext(
          EvalArguments(k, e, Slice(p, a, b), n - 1).value, EvalArgument(k, e, Slice(p, a, b), n - 1).value,
          EvalArguments(k, e, p, n - 1).value, EvalArgument(k, e, p, n - 1).value, p.height, a, b,
          ArgumentsLookBack(e, n - 1), ArgumentLookBack(e, n - 1));
      }
    }
  }

  lemma {:induction false} ArgumentLookBackBounded(k: Kernels, e: Expression, p: Panel, a: nat, b: nat, i: nat)
    requires p.Valid() && WellFormed(e) && a <= b <= p.height && e.Apply? && i < |e.args|
    ensures EvalArgument(k, e, p, i).Ok? == EvalArgument(k, e, Slice(p, a, b), i).Ok?
    ensures EvalArgument(k, e, p, i).Err? ==> EvalArgument(k, e, Slice(p, a, b), i) == EvalArgument(k, e, p, i)
    ensures EvalArgument(k, e, p, i).Ok? ==> |EvalArgument(k, e, p, i).value| == p.height
    ensures EvalArgument(k, e, p, i).Ok? ==>
      Repeats(EvalArgument(k, e, Slice(p, a, b), i).value, EvalArgument(k, e, p, i).value, a, b,
              From(a, ArgumentLookBack(e, i)))
    decreases e, 0, i
  {
    if e.args[i].Nested? {
      BoundedLookBack(k, e.args[i].expression, p, a, b);
    } else if FitsFloat(k, e.args[i]) {
      FullRepeats(p.height, p.width, k.number(e.args[i]), a, b);
    }
  }

  lemma RepeatsPrefix(part: Grid, whole: Grid, b: nat)
    requires Repeats(part, whole, 0, b, 0)
    ensures part == whole[..b]
  {
    forall t | 0 <= t < b
      ensures part[t] == whole[..b][t]
    {
      assert SameRow(part, whole, 0, t);
    }
  }

  lemma RepeatsSuffix(part: Grid, whole: Grid, a: nat, lookBack: nat)
    requires Repeats(part, whole, a, |whole|, a + lookBack) && a + lookBack <= |whole|
    ensures part[lookBack..] == whole[a + lookBack..]
  {
    forall i | 0 <= i < |whole| - a - lookBack
      ensures part[lookBack..][i] == whole[a + lookBack..][i]
    {
      assert SameRow(part, whole, a, a + lookBack + i);
    }
  }

  /** Causality: rows before b do not change when the panel ends at b. */
  lemma LaterRowsNeverMatter(k: Kernels, e: Expression, p: Panel, b: nat)
    requires p.Valid() && WellFormed(e) && b <= p.height && Eval(k, e, p).Ok?
    ensures |Eval(k, e, p).value| == p.height
    ensures Eval(k, e, Slice(p, 0, b)) == Ok(Eval(k, e, p).value[..b])
  {
    BoundedLookBack(k, e, p, 0, b);
    RepeatsPrefix(Eval(k, e, Slice(p, 0, b)).value, Eval(k, e, p).value, b);
  }

  /** Incremental recomputation: dropping the first s rows leaves every row from s + LookBack(e) on. */
  lemma WarmUpSuffices(k: Kernels, e: Expression, p: Panel, s: nat)
    requires p.Valid() && WellFormed(e) && s + LookBack(e) <= p.height && Eval(k, e, p).Ok?
    ensures |Eval(k, e, p).value| == p.height
    ensures var part := Eval(k, e, Slice(p, s, p.height));
      part.Ok? && |part.value| == p.height - s && part.value[LookBack(e)..] == Eval(k, e, p).value[s + LookBack(e)..]
  {
    var part, whole := Eval(k, e, Slice(p, s, p.height)), Eval(k, e, p).value;
    BoundedLookBack(k, e, p, s, p.height);
    RepeatsLater(part.value, whole, s, p.height, From(s, LookBack(e)), s + LookBack(e));
    RepeatsSuffix(part.value, whole, s, LookBack(e));
  }

  /** The close n rows earlier, one row at a time. */
  function Delayed(n: nat): Expression {
    if n == 0 then Field(Close) else Apply(Ref, [Nested(Delayed(n - 1)), IntArg(1)])
  }

  /** One symbol whose close is always 1. */
  ghost function ConstantClose(height: nat): Panel {
    Panel(height, 1, map[Close := Full(height, 1, Some(1.0))])
  }

  ghost predicate DelaysClose(grid: Grid, p: Panel, n: nat) {
    && Close in p.fields && |grid| == |p.fields[Close]|
    && forall t :: 0 <= t < |grid| ==> grid[t] == if t < n then NanRow(p.width) else RowAt(p.fields[Close], t - n)
  }

  lemma {:induction false} DelayedLookBack(n: nat)
    ensures WellFormed(Delayed(n)) && LookBack(Delayed(n)) == n
  {
    if n > 0 {
      DelayedLookBack(n - 1);
      DelayedReach(n);
    }
  }

  lemma {:induction false} DelayedEval(k: Kernels, n: nat, p: Panel)
    requires 1 < k.floatLimit && p.Valid() && Close in p.fields && WellFormed(Delayed(n))
    ensures Eval(k, Delayed(n), p).Ok? && DelaysClose(Eval(k, Delayed(n), p).value, p, n)
  {
    if n == 0 {
      assert Eval(k, Delayed(0), p) == Ok(p.fields[Close]);
    } else {
      DelayedLookBack(n - 1);
      DelayedEval(k, n - 1, p);
      OneRowBack(k, Delayed(n - 1), p);
      DelaysMore(Eval(k, Delayed(n - 1), p).value, p, n - 1);
    }
  }

  lemma OneRowBack(k: Kernels, inner: Expression, p: Panel)
    requires 1 < k.floatLimit && WellFormed(inner) && Eval(k, inner, p).Ok?
    ensures var e := Apply(Ref, [Nested(inner), IntArg(1)]);
      WellFormed(e) && Eval(k, e, p) == Ok(Shifted(Eval(k, inner, p).value, 1, p.width))
  {
    var e := Apply(Ref, [Nested(inner), IntArg(1)]);
    assert e.args[0] == Nested(inner) && e.args[1] == IntArg(1);
    TwoEvaluate(k, e, p);
  }

  lemma DelaysMore(grid: Grid, p: Panel, n: nat)
    requires DelaysClose(grid, p, n)
    ensures DelaysClose(Shifted(grid, 1, p.width), p, n + 1)
  {
  }

  lemma DelayedReach(n: nat)
    requires 0 < n
    ensures LookBack(Delayed(n)) == LookBack(Delayed(n - 1)) + 1
  {
    var e := Delayed(n);
    assert ArgumentLookBack(e, 0) == LookBack(Delayed(n - 1)) && ArgumentLookBack(e, 1) == 0;
    assert ArgumentsLookBack(e, 0) == 0;
    assert ArgumentsLookBack(e, 1) == LookBack(Delayed(n - 1));
    assert ArgumentsLookBack(e, 2) == LookBack(Delayed(n - 1));
  }

  /** No shorter warm-up would do: for every look-back n and every number of dropped rows there are an
      expression and a panel whose row s + n - 1 changes when the first s rows are dropped. */
  lemma WarmUpNecessary(k: Kernels, n: nat, s: nat)
    requires 1 < k.floatLimit && 0 < n && 0 < s
    ensures var e, p := Delayed(n), ConstantClose(s + n);
      && p.Valid() && WellFormed(e) && LookBack(e) == n
      && Eval(k, e, p).Ok? && |Eval(k, e, p).value| == s + n
      && var part := Eval(k, e, Slice(p, s, s + n));
         part.Ok? && |part.value| == n && part.value[n - 1] != Eval(k, e, p).value[s + n - 1]
  {
    var e, p := Delayed(n), ConstantClose(s + n);
    var q := Slice(p, s, s + n);
    assert q.Valid();
    DelayedLookBack(n);
    DelayedEval(k, n, p);
    DelayedEval(k, n, q);
    assert Eval(k, e, p).value[s + n - 1] == RowAt(p.fields[Close], s - 1);
    assert RowAt(p.fields[Close], s - 1)[0] == Some(1.0);
    assert Eval(k, e, q).value[n - 1] == NanRow(1);
    assert NanRow(1)[0] == None;
  }

  lemma TwoEvaluate(k: Kernels, e: Expression, p: Panel)
    requires WellFormed(e) && e.Apply? && |e.args| == 2
    requires EvalArgument(k, e, p, 0).Ok? && EvalArgument(k, e, p, 1).Ok?
    ensures EvalArguments(k, e, p, 2) == Ok([EvalArgument(k, e, p, 0).value, EvalArgument(k, e, p, 1).value])
  {
    var first, second := EvalArgument(k, e, p, 0).value, EvalArgument(k, e, p, 1).value;
    var none: seq<Grid> := [];
    assert EvalArguments(k, e, p, 0) == Ok(none);
    assert none + [first] == [first] && [first] + [second] == [first, second];
    assert EvalArguments(k, e, p, 1) == Ok([first]);
  }

  // What evaluation depends on.

  /** A Winsorize limit is a literal number, throughout. The parser also lets an expression through. */
  ghost predicate NumericLimits(e: Expression)
    requires WellFormed(e)
    decreases e
  {
    e.Apply? ==>
      && (e.op == Winsorize && |e.args| == 2 ==> !e.args[1].Nested?)
      && forall i :: 0 <= i < |e.args| && e.args[i].Nested? ==> NumericLimits(e.args[i].expression)
  }

  /** Every integer literal converts to a float, throughout. */
  ghost predicate LiteralsFit(k: Kernels, e: Expression)
    requires WellFormed(e)
    decreases e
  {
    e.Apply? ==>
      && (forall i :: 0 <= i < |e.args| ==> FitsFloat(k, e.args[i]))
      && forall i :: 0 <= i < |e.args| && e.args[i].Nested? ==> LiteralsFit(k, e.args[i].expression)
  }

  /** Evaluation succeeds exactly when the panel has the required fields, every integer literal converts to
      a float and every limit is a number. */
  lemma {:induction false} EvaluatesExactly(k: Kernels, e: Expression, p: Panel)
    requires WellFormed(e)
    ensures Eval(k, e, p).Ok? <==> RequiredFields(e) <= p.fields.Keys && LiteralsFit(k, e) && NumericLimits(e)
    decreases e, 1
  {
    if e.Apply? {
      ArgumentsEvaluateExactly(k, e, p, |e.args|);
    }
  }

  lemma {:induction false} ArgumentsEvaluateExactly(k: Kernels, e: Expression, p: Panel, n: nat)
    requires WellFormed(e) && e.Apply? && n <= |e.args|
    ensures EvalArguments(k, e, p, n).Ok? <==>
      (ArgumentFields(e, n) <= p.fields.Keys
       && (forall i :: 0 <= i < n ==> FitsFloat(k, e.args[i]))
       && (forall i :: 0 <= i < n && e.args[i].Nested? ==> LiteralsFit(k, e.args[i].expression))
       && forall i :: 0 <= i < n && e.args[i].Nested? ==> NumericLimits(e.args[i].expression))
    decreases e, 0, n
  {
    if n > 0 {
      ArgumentsEvaluateExactly(k, e, p, n - 1);
      if e.args[n - 1].Nested? {
        EvaluatesExactly(k, e.args[n - 1].expression, p);
      }
    }
  }

  /** A close clipped at an open is accepted, and fails on every panel that has both fields. */
  lemma NestedLimitRaises(k: Kernels, p: Panel)
    requires Close in p.fields && Open in p.fields
    ensures var e := Apply(Winsorize, [Nested(Field(Close)), Nested(Field(Open))]);
      && Convert(Call(Name("Winsorize"), [Name("Close"), Name("Open")], false)) == Ok(e)
      && WellFormed(e) && Eval(k, e, p) == Err(LimitNotNumeric)
  {
    var e := Apply(Winsorize, [Nested(Field(Close)), Nested(Field(Open))]);
    assert e.args[0] == Nested(Field(Close)) && e.args[1] == Nested(Field(Open));
    UnparsedTwo(e);
    EveryWellFormedParses(e);
    TwoEvaluate(k, e, p);
  }

  /** An expression with an integer literal too large for a float is accepted, and fails on every panel. */
  lemma LargeIntegerRaises(k: Kernels, field: RawField, op: Operator, n: nat, p: Panel)
    requires op == Add || op == Sub || op == Mul || op == Div || op == Power
    requires field in p.fields && k.floatLimit <= n
    ensures var e := Apply(op, [Nested(Field(field)), IntArg(n)]);
      && Convert(Call(Name(OperatorName(op)), [Name(FieldName(field)), IntConstant(n)], false)) == Ok(e)
      && WellFormed(e) && Eval(k, e, p) == Err(IntegerTooLarge)
  {
    var e := Apply(op, [Nested(Field(field)), IntArg(n)]);
    assert e.args[0] == Nested(Field(field)) && e.args[1] == IntArg(n);
    UnparsedTwo(e);
    EveryWellFormedParses(e);
    SecondFails(k, e, p);
  }

  lemma SecondFails(k: Kernels, e: Expression, p: Panel)
    requires WellFormed(e) && e.Apply? && |e.args| == 2
    requires EvalArgument(k, e, p, 0).Ok? && EvalArgument(k, e, p, 1).Err?
    ensures Eval(k, e, p) == Err(EvalArgument(k, e, p, 1).error)
  {
    var none: seq<Grid> := [];
    assert EvalArguments(k, e, p, 0) == Ok(none);
    assert EvalArguments(k, e, p, 1) == Ok(none + [EvalArgument(k, e, p, 0).value]);
  }

  ghost predicate SameOn(p: Panel, q: Panel, fields: set<RawField>) {
    && p.height == q.height && p.width == q.width
    && forall f :: f in fields ==> (f in p.fields <==> f in q.fields) && (f in p.fields ==> p.fields[f] == q.fields[f])
  }

  /** Evaluation reads no field outside the required ones. */
  lemma {:induction false} ReadsRequiredFieldsOnly(k: Kernels, e: Expression, p: Panel, q: Panel)
    requires WellFormed(e) && SameOn(p, q, RequiredFields(e))
    ensures Eval(k, e, p) == Eval(k, e, q)
    decreases e, 1
  {
    if e.Apply? {
      ArgumentsReadFields(k, e, p, q, |e.args|);
    }
  }

  lemma {:induction false} ArgumentsReadFields(k: Kernels, e: Expression, p: Panel, q: Panel, n: nat)
    requires WellFormed(e) && e.Apply? && n <= |e.args| && SameOn(p, q, ArgumentFields(e, n))
    ensures EvalArguments(k, e, p, n) == EvalArguments(k, e, q, n)
    decreases e, 0, n
  {
    if n > 0 {
      ArgumentsReadFields(k, e, p, q, n - 1);
      if e.args[n - 1].Nested? {
        ReadsRequiredFieldsOnly(k, e.args[n - 1].expression, p, q);
      }
    }
  }
}
