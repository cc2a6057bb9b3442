/** Flattening and repeating sequences, up to order. */
module Sequences {

  ghost predicate Unrepeated<T>(xs: seq<T>) {
    forall i, j :: 0 <= i < j < |xs| ==> xs[i] != xs[j]
  }

  ghost function Flat<T, U>(f: T -> seq<U>, xs: seq<T>): seq<U> {
    if xs == [] then [] else Flat(f, xs[..|xs| - 1]) + f(xs[|xs| - 1])
  }

  lemma {:induction false} FlatSplit<T, U>(f: T -> seq<U>, a: seq<T>, b: seq<T>)
    ensures Flat(f, a + b) == Flat(f, a) + Flat(f, b)
  {
    if b == [] {
      assert a + b == a;
    } else {
      FlatSplit(f, a, b[..|b| - 1]);
      assert (a + b)[..|a + b| - 1] == a + b[..|b| - 1];
    }
  }

  lemma FlatNext<T, U>(f: T -> seq<U>, xs: seq<T>, next: T)
    ensures Flat(f, xs + [next]) == Flat(f, xs) + f(next)
  {
    assert (xs + [next])[..|xs|] == xs;
  }

  /** What is left without the j-th element. */
  function Without<T>(xs: seq<T>, j: nat): seq<T>
    requires j < |xs|
  {
    xs[..j] + xs[j + 1..]
  }

  lemma Spliced<T>(xs: seq<T>, j: nat)
    requires j < |xs|
    ensures xs == (xs[..j] + [xs[j]]) + xs[j + 1..]
  {
  }

  lemma WithoutElement<T>(xs: seq<T>, j: nat)
    requires j < |xs|
    ensures multiset(xs) == multiset(Without(xs, j)) + multiset{xs[j]}
  {
    Spliced(xs, j);
  }

  lemma MiddleOut<U>(a: seq<U>, middle: seq<U>, b: seq<U>)
    ensures multiset(a + middle + b) == multiset(a + b) + multiset(middle)
  {
  }

  lemma FlatWithout<T, U>(f: T -> seq<U>, xs: seq<T>, j: nat)
    requires j < |xs|
    ensures multiset(Flat(f, xs)) == multiset(Flat(f, Without(xs, j))) + multiset(f(xs[j]))
  {
    var front, back := xs[..j], xs[j + 1..];
    Spliced(xs, j);
    FlatSplit(f, front + [xs[j]], back);
    FlatNext(f, front, xs[j]);
    FlatSplit(f, front, back);
    MiddleOut(Flat(f, front), f(xs[j]), Flat(f, back));
  }

  lemma CancelElement<T>(a: multiset<T>, b: multiset<T>, x: T)
    requires a + multiset{x} == b + multiset{x}
    ensures a == b
  {
    assert a == (a + multiset{x}) - multiset{x};
    assert b == (b + multiset{x}) - multiset{x};
  }

  /** Both hold x; without it they still hold the same elements. */
  lemma TakeOutOfBoth<T>(a: seq<T>, b: seq<T>) returns (j: nat)
    requires multiset(a) == multiset(b) && a != []
    ensures j < |b| && b[j] == a[|a| - 1]
    ensures multiset(a[..|a| - 1]) == multiset(Without(b, j))
  {
    var init, last := a[..|a| - 1], a[|a| - 1];
    assert last in multiset(a);
    assert last in b;
    j :| 0 <= j < |b| && b[j] == last;
    assert a == init + [last];
    WithoutElement(b, j);
    CancelElement(multiset(init), multiset(Without(b, j)), last);
  }

  /** Reordering the input reorders the output. */
  lemma {:induction false} FlatPermuted<T, U>(f: T -> seq<U>, a: seq<T>, b: seq<T>)
    requires multiset(a) == multiset(b)
    ensures multiset(Flat(f, a)) == multiset(Flat(f, b))
    decreases |a|
  {
    if a == [] {
      assert |multiset(b)| == |b|;
    } else {
      var j := TakeOutOfBoth(a, b);
      FlatPermuted(f, a[..|a| - 1], Without(b, j));
      FlatWithout(f, b, j);
    }
  }

  function Repeated<T>(xs: seq<T>, n: nat): seq<T> {
    if n == 0 then [] else Repeated(xs, n - 1) + xs
  }

  lemma {:induction false} RepeatedElements<T>(xs: seq<T>, n: nat)
    requires 0 < n
    ensures forall x :: x in Repeated(xs, n) <==> x in xs
  {
    if n > 1 {
      RepeatedElements(xs, n - 1);
    } else {
      assert Repeated(xs, 1) == Repeated(xs, 0) + xs == xs;
    }
  }

  lemma {:induction false} FlatRepeated<T, U>(f: T -> seq<U>, xs: seq<T>, n: nat)
    ensures Flat(f, Repeated(xs, n)) == Repeated(Flat(f, xs), n)
  {
    if n > 0 {
      FlatRepeated(f, xs, n - 1);
      FlatSplit(f, Repeated(xs, n - 1), xs);
    }
  }

  /** Equal outputs, element by element, flatten to the same sequence. */
  lemma {:induction false} FlatAgrees<T, U>(f: T -> seq<U>, g: T -> seq<U>, a: seq<T>, b: seq<T>)
    requires |a| == |b| && forall i :: 0 <= i < |a| ==> f(a[i]) == g(b[i])
    ensures Flat(f, a) == Flat(g, b)
  {
    if a != [] {
      FlatAgrees(f, g, a[..|a| - 1], b[..|b| - 1]);
    }
  }

  function Kept<T>(keep: T -> bool, xs: seq<T>): seq<T> {
    if xs == [] then []
    else Kept(keep, xs[..|xs| - 1]) + if keep(xs[|xs| - 1]) then [xs[|xs| - 1]] else []
  }

  lemma {:induction false} KeptElements<T>(keep: T -> bool, xs: seq<T>)
    ensures forall x :: x in Kept(keep, xs) <==> x in xs && keep(x)
  {
    if xs != [] {
      KeptElements(keep, xs[..|xs| - 1]);
      assert xs == xs[..|xs| - 1] + [xs[|xs| - 1]];
    }
  }

  lemma KeptNext<T>(keep: T -> bool, xs: seq<T>, next: T)
    ensures Kept(keep, xs + [next]) == Kept(keep, xs) + if keep(next) then [next] else []
  {
    assert (xs + [next])[..|xs|] == xs;
  }

  lemma {:induction false} KeptConcatenation<T>(keep: T -> bool, a: seq<T>, b: seq<T>)
    ensures Kept(keep, a + b) == Kept(keep, a) + Kept(keep, b)
  {
    if b == [] {
      assert a + b == a;
    } else {
      KeptConcatenation(keep, a, b[..|b| - 1]);
      assert (a + b)[..|a + b| - 1] == a + b[..|b| - 1];
    }
  }

  /** Keeping more first makes no difference. */
  lemma {:induction false} KeptTwice<T>(keep: T -> bool, more: T -> bool, xs: seq<T>)
    requires forall x :: x in xs && keep(x) ==> more(x)
    ensures Kept(keep, Kept(more, xs)) == Kept(keep, xs)
  {
    if xs != [] {
      var init, last := xs[..|xs| - 1], xs[|xs| - 1];
      assert xs == init + [last];
      KeptTwice(keep, more, init);
      KeptNext(keep, Kept(more, init), last);
      assert last in xs;
      assert Kept(more, xs) == if more(last) then Kept(more, init) + [last] else Kept(more, init);
    }
  }

  /** Leaving out elements that contribute nothing changes nothing. */
  lemma {:induction false} FlatKept<T, U>(keep: T -> bool, f: T -> seq<U>, xs: seq<T>)
    requires forall x :: x in xs && !keep(x) ==> f(x) == []
    ensures Flat(f, Kept(keep, xs)) == Flat(f, xs)
  {
    if xs != [] {
      var init, last := xs[..|xs| - 1], xs[|xs| - 1];
      assert xs == init + [last];
      FlatKept(keep, f, init);
      FlatNext(f, Kept(keep, init), last);
      assert last in xs;
      if !keep(last) {
        assert Kept(keep, xs) == Kept(keep, init);
        assert Flat(f, xs) == Flat(f, init);
      }
    }
  }
}
