/** Laws of a left fold whose step may fail. */
module Folding {
  import opened Wrappers

  type FoldStep<!S, !R, !E> = (S, R) -> Result<R, E>

  /** The state after the first n inputs, or the first failure. */
  ghost function Fold<S, R, E>(step: FoldStep<S, R, E>, first: R, inputs: seq<S>, n: nat): Result<R, E>
    requires n <= |inputs|
  {
    if n == 0 then Ok(first)
    else
      var before :- Fold(step, first, inputs, n - 1);
      step(inputs[n - 1], before)
  }

  lemma {:induction false} FoldErrorPersists<S, R, E>(step: FoldStep<S, R, E>, first: R, inputs: seq<S>, k: nat, n: nat)
    requires k <= n <= |inputs| && Fold(step, first, inputs, k).Err?
    ensures Fold(step, first, inputs, n) == Fold(step, first, inputs, k)
    decreases n
  {
    if k < n {
      FoldErrorPersists(step, first, inputs, k, n - 1);
    }
  }

  /** From a reached state the fold takes one step; a failing step fails the whole fold. */
  lemma FoldNext<S, R, E>(step: FoldStep<S, R, E>, first: R, inputs: seq<S>, k: nat, r: R)
    requires k < |inputs| && Fold(step, first, inputs, k) == Ok(r)
    ensures Fold(step, first, inputs, k + 1) == step(inputs[k], r)
    ensures step(inputs[k], r).Err? ==> Fold(step, first, inputs, |inputs|) == step(inputs[k], r)
  {
    if step(inputs[k], r).Err? {
      FoldErrorPersists(step, first, inputs, k + 1, |inputs|);
    }
  }

  /** A property every successful step keeps holds of every state reached. */
  lemma {:induction false} FoldInvariant<S, R(!new), E>(
    step: FoldStep<S, R, E>, first: R, inputs: seq<S>, inv: (nat, R) -> bool, n: nat)
    requires n <= |inputs| && inv(0, first)
    requires forall k, r :: 0 <= k < n && inv(k, r) && step(inputs[k], r).Ok? ==> inv(k + 1, step(inputs[k], r).value)
    ensures Fold(step, first, inputs, n).Ok? ==> inv(n, Fold(step, first, inputs, n).value)
    decreases n
  {
    if n > 0 {
      FoldInvariant(step, first, inputs, inv, n - 1);
    }
  }

  /** `good` holds of every state reached before the n-th step. */
  ghost predicate Always<S, R, E>(
    step: FoldStep<S, R, E>, first: R, inputs: seq<S>, good: (nat, R) -> bool, n: nat)
    requires n <= |inputs|
  {
    forall k :: 0 <= k < n && Fold(step, first, inputs, k).Ok? ==> good(k, Fold(step, first, inputs, k).value)
  }

  /** A good state steps on and keeps the invariant; any other fails with the error it calls for. */
  ghost predicate FailsWhenBad<S, R, E>(
    step: FoldStep<S, R, E>, inputs: seq<S>, inv: (nat, R) -> bool, good: (nat, R) -> bool, error: (nat, R) -> E,
    k: nat, r: R)
    requires k < |inputs|
  {
    inv(k, r) ==>
      if good(k, r) then step(inputs[k], r).Ok? && inv(k + 1, step(inputs[k], r).value)
      else step(inputs[k], r) == Err(error(k, r))
  }

  /** The fold failed at the k-th state, which was not good. */
  ghost predicate FailedAt<S, R, E>(
    step: FoldStep<S, R, E>, first: R, inputs: seq<S>, good: (nat, R) -> bool, error: (nat, R) -> E, n: nat, k: nat)
    requires k < n <= |inputs|
  {
    var before := Fold(step, first, inputs, k);
    before.Ok? && !good(k, before.value) && Fold(step, first, inputs, n) == Err(error(k, before.value))
  }

  /** When a step from a reached state fails exactly if the state is not good, so does the fold. */
  lemma {:induction false} FoldFailsExactly<S, R, E>(
    step: FoldStep<S, R, E>, first: R, inputs: seq<S>, inv: (nat, R) -> bool, good: (nat, R) -> bool,
    error: (nat, R) -> E, n: nat)
    requires n <= |inputs| && inv(0, first)
    requires forall k :: 0 <= k < n && Fold(step, first, inputs, k).Ok? ==>
      FailsWhenBad(step, inputs, inv, good, error, k, Fold(step, first, inputs, k).value)
    ensures var last := Fold(step, first, inputs, n);
      if Always(step, first, inputs, good, n) then last.Ok? && inv(n, last.value)
      else exists k :: 0 <= k < n && FailedAt(step, first, inputs, good, error, n, k)
    decreases n
  {
    if n > 0 {
      FoldFailsExactly(step, first, inputs, inv, good, error, n - 1);
      var before := Fold(step, first, inputs, n - 1);
      if !Always(step, first, inputs, good, n - 1) {
        var k :| 0 <= k < n - 1 && FailedAt(step, first, inputs, good, error, n - 1, k);
        assert FailedAt(step, first, inputs, good, error, n, k);
      } else if !good(n - 1, before.value) {
        assert FailedAt(step, first, inputs, good, error, n, n - 1);
      }
    }
  }

  ghost predicate AgreeAt<R>(inv: (nat, R) -> bool, one: (nat, R) -> bool, other: (nat, R) -> bool, k: nat, r: R) {
    inv(k, r) ==> (one(k, r) <==> other(k, r))
  }

  /** If two properties agree on the states of an invariant, and steps from states with the property keep
      the invariant, then a fold always has the one property exactly when it always has the other. */
  lemma {:induction false} FoldAlwaysAgrees<S, R(!new), E>(
    step: FoldStep<S, R, E>, first: R, inputs: seq<S>, inv: (nat, R) -> bool, good: (nat, R) -> bool,
    error: (nat, R) -> E, one: (nat, R) -> bool, other: (nat, R) -> bool, n: nat)
    requires n <= |inputs| && inv(0, first)
    requires forall k, r :: 0 <= k < n ==> AgreeAt(inv, one, other, k, r)
    requires forall k, r :: 0 <= k < n && one(k, r) ==> FailsWhenBad(step, inputs, inv, good, error, k, r)
    ensures Always(step, first, inputs, one, n) <==> Always(step, first, inputs, other, n)
    ensures Always(step, first, inputs, one, n) && Fold(step, first, inputs, n).Ok? ==>
      inv(n, Fold(step, first, inputs, n).value)
    decreases n
  {
    if n > 0 {
      FoldAlwaysAgrees(step, first, inputs, inv, good, error, one, other, n - 1);
      var before := Fold(step, first, inputs, n - 1);
      if before.Ok? {
        assert AgreeAt(inv, one, other, n - 1, before.value);
        assert one(n - 1, before.value) ==> FailsWhenBad(step, inputs, inv, good, error, n - 1, before.value);
      }
    }
  }

  /** Two folds whose steps agree on the states reached agree. */
  lemma {:induction false} FoldAgrees<S, R(!new), E>(
    a: FoldStep<S, R, E>, b: FoldStep<S, R, E>, first: R, left: seq<S>, right: seq<S>, inv: (nat, R) -> bool, n: nat)
    requires n <= |left| && n <= |right| && inv(0, first)
    requires forall k, r :: 0 <= k < n && inv(k, r) && a(left[k], r).Ok? ==> inv(k + 1, a(left[k], r).value)
    requires forall k, r :: 0 <= k < n && inv(k, r) ==> a(left[k], r) == b(right[k], r)
    ensures Fold(a, first, left, n) == Fold(b, first, right, n)
    decreases n
  {
    if n > 0 {
      FoldAgrees(a, b, first, left, right, inv, n - 1);
      FoldInvariant(a, first, left, inv, n - 1);
    }
  }

  ghost predicate StepsThrough<S, R, E>(step: FoldStep<S, R, E>, first: R, inputs: seq<S>, n: nat, states: seq<R>) {
    && n <= |inputs| && |states| == n + 1
    && forall k :: 0 <= k <= n ==> Fold(step, first, inputs, k) == Ok(states[k])
  }

  /** The states a successful fold passes through. */
  lemma {:induction false} FoldStates<S, R, E>(step: FoldStep<S, R, E>, first: R, inputs: seq<S>, n: nat)
    returns (states: seq<R>)
    requires n <= |inputs| && Fold(step, first, inputs, n).Ok?
    ensures StepsThrough(step, first, inputs, n, states)
    decreases n
  {
    if n == 0 {
      states := [first];
    } else {
      var earlier := FoldStates(step, first, inputs, n - 1);
      states := earlier + [Fold(step, first, inputs, n).value];
    }
  }

  /** A fold step made of two halves: the k-th half-step handles input k / 2. */
  ghost function Half<S, R, E>(
    open: FoldStep<S, R, E>, close: FoldStep<S, R, E>, inputs: seq<S>, k: nat, r: R): Result<R, E>
    requires k < 2 * |inputs|
  {
    if k % 2 == 0 then open(inputs[k / 2], r) else close(inputs[k / 2], r)
  }

  ghost predicate TraceAt<S, R, E>(
    open: FoldStep<S, R, E>, close: FoldStep<S, R, E>, inputs: seq<S>, trace: seq<R>, k: nat)
    requires k < 2 * |inputs| && k + 1 < |trace|
  {
    Half(open, close, inputs, k, trace[k]) == Ok(trace[k + 1])
  }

  /** States linked by successful half-steps. */
  ghost predicate IsTrace<S, R, E>(
    open: FoldStep<S, R, E>, close: FoldStep<S, R, E>, first: R, inputs: seq<S>, trace: seq<R>)
  {
    && 1 <= |trace| <= 2 * |inputs| + 1 && trace[0] == first
    && forall k :: 0 <= k < |trace| - 1 ==> TraceAt(open, close, inputs, trace, k)
  }

  lemma ExtendTrace<S, R, E>(
    open: FoldStep<S, R, E>, close: FoldStep<S, R, E>, first: R, inputs: seq<S>, trace: seq<R>, next: R)
    requires IsTrace(open, close, first, inputs, trace) && |trace| <= 2 * |inputs|
    requires Half(open, close, inputs, |trace| - 1, trace[|trace| - 1]) == Ok(next)
    ensures IsTrace(open, close, first, inputs, trace + [next])
  {
    forall k | 0 <= k < |trace|
      ensures TraceAt(open, close, inputs, trace + [next], k)
    {
      assert k < |trace| - 1 ==> TraceAt(open, close, inputs, trace, k);
    }
  }

  ghost predicate Composes<S(!new), R(!new), E>(
    step: FoldStep<S, R, E>, open: FoldStep<S, R, E>, close: FoldStep<S, R, E>)
  {
    forall s, r :: step(s, r) == if open(s, r).Ok? then close(s, open(s, r).value) else open(s, r)
  }

  lemma {:induction false} TraceFollowsFold<S(!new), R(!new), E>(
    step: FoldStep<S, R, E>, open: FoldStep<S, R, E>, close: FoldStep<S, R, E>,
    first: R, inputs: seq<S>, trace: seq<R>, i: nat)
    requires Composes(step, open, close) && IsTrace(open, close, first, inputs, trace) && 2 * i < |trace|
    ensures Fold(step, first, inputs, i) == Ok(trace[2 * i])
    decreases i
  {
    if i > 0 {
      TraceFollowsFold(step, open, close, first, inputs, trace, i - 1);
      assert TraceAt(open, close, inputs, trace, 2 * i - 2) && TraceAt(open, close, inputs, trace, 2 * i - 1);
      assert (2 * i - 2) / 2 == i - 1 && (2 * i - 1) / 2 == i - 1;
    }
  }

  /** A complete trace ends where the fold does; a failing half-step fails the fold. */
  lemma TraceDecides<S(!new), R(!new), E>(
    step: FoldStep<S, R, E>, open: FoldStep<S, R, E>, close: FoldStep<S, R, E>,
    first: R, inputs: seq<S>, trace: seq<R>)
    requires Composes(step, open, close) && IsTrace(open, close, first, inputs, trace)
    ensures |trace| == 2 * |inputs| + 1 ==> Fold(step, first, inputs, |inputs|) == Ok(trace[|trace| - 1])
    ensures |trace| <= 2 * |inputs| && Half(open, close, inputs, |trace| - 1, trace[|trace| - 1]).Err? ==>
      Fold(step, first, inputs, |inputs|) == Half(open, close, inputs, |trace| - 1, trace[|trace| - 1])
  {
    var n, i := |trace| - 1, (|trace| - 1) / 2;
    TraceFollowsFold(step, open, close, first, inputs, trace, i);
    if n < 2 * |inputs| {
      FoldNext(step, first, inputs, i, trace[2 * i]);
      assert n == 2 * i + 1 ==> TraceAt(open, close, inputs, trace, 2 * i);
    }
  }
}
