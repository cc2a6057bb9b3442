/** A stable sort with a key. */
module Sorting {
  import Sequences

  type Order<!T> = (T, T) -> bool

  /** x goes after every element it does not come before. */
  function Inserted<T>(items: seq<T>, x: T, atMost: Order<T>): (r: seq<T>)
    ensures |r| == |items| + 1
  {
    if items == [] || atMost(items[|items| - 1], x) then items + [x]
    else Inserted(items[..|items| - 1], x, atMost) + [items[|items| - 1]]
  }

  function SortedBy<T>(items: seq<T>, atMost: Order<T>): (r: seq<T>)
    ensures |r| == |items|
  {
    if items == [] then []
    else Inserted(SortedBy(items[..|items| - 1], atMost), items[|items| - 1], atMost)
  }

  ghost predicate TotalPreorder<T(!new)>(atMost: Order<T>) {
    && (forall x, y :: atMost(x, y) || atMost(y, x))
    && (forall x, y, z :: atMost(x, y) && atMost(y, z) ==> atMost(x, z))
  }

  ghost predicate IsSorted<T>(items: seq<T>, atMost: Order<T>) {
    forall i, j :: 0 <= i < j < |items| ==> atMost(items[i], items[j])
  }

  lemma {:induction false} InsertedElements<T>(items: seq<T>, x: T, atMost: Order<T>)
    ensures multiset(Inserted(items, x, atMost)) == multiset(items) + multiset{x}
  {
    if items != [] && !atMost(items[|items| - 1], x) {
      InsertedElements(items[..|items| - 1], x, atMost);
      assert items == items[..|items| - 1] + [items[|items| - 1]];
    }
  }

  lemma SortedAppend<T>(items: seq<T>, last: T, atMost: Order<T>)
    requires IsSorted(items, atMost) && forall y :: y in items ==> atMost(y, last)
    ensures IsSorted(items + [last], atMost)
  {
  }

  lemma {:induction false} InsertedSorted<T(!new)>(items: seq<T>, x: T, atMost: Order<T>)
    requires TotalPreorder(atMost) && IsSorted(items, atMost)
    ensures IsSorted(Inserted(items, x, atMost), atMost)
  {
    if items == [] {
    } else if atMost(items[|items| - 1], x) {
      forall y | y in items
        ensures atMost(y, x)
      {
        assert y == items[|items| - 1] || atMost(y, items[|items| - 1]);
      }
      SortedAppend(items, x, atMost);
    } else {
      var n := |items| - 1;
      var r := Inserted(items[..n], x, atMost);
      InsertedSorted(items[..n], x, atMost);
      InsertedElements(items[..n], x, atMost);
      forall y | y in r
        ensures atMost(y, items[n])
      {
        assert y in multiset(r);
        assert y == x || y in items[..n];
      }
      SortedAppend(r, items[n], atMost);
    }
  }

  /** The result is sorted and holds the same elements. */
  lemma {:induction false} SortedByFacts<T(!new)>(items: seq<T>, atMost: Order<T>)
    requires TotalPreorder(atMost)
    ensures IsSorted(SortedBy(items, atMost), atMost)
    ensures multiset(SortedBy(items, atMost)) == multiset(items)
  {
    if items != [] {
      SortedByFacts(items[..|items| - 1], atMost);
      InsertedSorted(SortedBy(items[..|items| - 1], atMost), items[|items| - 1], atMost);
      InsertedElements(SortedBy(items[..|items| - 1], atMost), items[|items| - 1], atMost);
      assert items == items[..|items| - 1] + [items[|items| - 1]];
    }
  }

  /** The elements that tie with x. */
  function Ties<T>(x: T, atMost: Order<T>): T -> bool {
    y => atMost(x, y) && atMost(y, x)
  }

  lemma {:induction false} InsertedTies<T(!new)>(items: seq<T>, z: T, x: T, atMost: Order<T>)
    requires TotalPreorder(atMost)
    ensures var tie := Ties(x, atMost);
      Sequences.Kept(tie, Inserted(items, z, atMost)) == Sequences.Kept(tie, items) + if tie(z) then [z] else []
  {
    var tie := Ties(x, atMost);
    if items == [] || atMost(items[|items| - 1], z) {
      Sequences.KeptNext(tie, items, z);
    } else {
      var init, last := items[..|items| - 1], items[|items| - 1];
      assert items == init + [last];
      InsertedTies(init, z, x, atMost);
      Sequences.KeptNext(tie, init, last);
      Sequences.KeptNext(tie, Inserted(init, z, atMost), last);
    }
  }

  /** The sort is stable: elements that tie keep their order. */
  lemma {:induction false} SortedByIsStable<T(!new)>(items: seq<T>, x: T, atMost: Order<T>)
    requires TotalPreorder(atMost)
    ensures Sequences.Kept(Ties(x, atMost), SortedBy(items, atMost)) == Sequences.Kept(Ties(x, atMost), items)
  {
    if items != [] {
      SortedByIsStable(items[..|items| - 1], x, atMost);
      InsertedTies(SortedBy(items[..|items| - 1], atMost), items[|items| - 1], x, atMost);
    }
  }

  method Insert<T>(items: seq<T>, x: T, atMost: Order<T>) returns (r: seq<T>)
    ensures r == Inserted(items, x, atMost)
  {
    var k := |items|;
    assert items[..k] == items;
    while 0 < k && !atMost(items[k - 1], x)
      invariant 0 <= k <= |items|
      invariant Inserted(items, x, atMost) == Inserted(items[..k], x, atMost) + items[k..]
    {
      assert items[..k][..k - 1] == items[..k - 1];
      assert items[k - 1..] == [items[k - 1]] + items[k..];
      k := k - 1;
    }
    r := items[..k] + [x] + items[k..];
  }

  method Sort<T>(items: seq<T>, atMost: Order<T>) returns (r: seq<T>)
    ensures r == SortedBy(items, atMost)
  {
    r := [];
    for i := 0 to |items|
      invariant r == SortedBy(items[..i], atMost)
    {
      assert items[..i + 1][..i] == items[..i];
      r := Insert(r, items[i], atMost);
    }
    assert items[..|items|] == items;
  }
}
