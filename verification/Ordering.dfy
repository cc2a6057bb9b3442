/** The ascending listing of a finite set of integers. */
module Ordering {

  lemma Pick<T>(s: set<T>) returns (x: T)
    requires s != {}
    ensures x in s
  {
    x :| x in s;
  }

  predicate IsLeast(least: int, s: set<int>) {
    least in s && forall x :: x in s ==> least <= x
  }

  lemma {:induction false} Least(s: set<int>) returns (least: int)
    requires s != {}
    ensures IsLeast(least, s)
    decreases s
  {
    least := Pick(s);
    var first, rest := least, s - {least};
    if rest != {} {
      var other := Least(rest);
      least := if other < first then other else first;
    }
    assert forall x :: x in s ==> x == first || x in rest;
  }

  lemma LeastExists(s: set<int>)
    requires s != {}
    ensures exists least :: IsLeast(least, s)
  {
    var least := Least(s);
  }

  ghost function Ascending(s: set<int>): seq<int>
    decreases s
  {
    if s == {} then []
    else
      LeastExists(s);
      var least :| IsLeast(least, s);
      [least] + Ascending(s - {least})
  }

  /** The listing holds exactly the members of the set, strictly increasing. */
  lemma {:induction false} AscendingFacts(s: set<int>)
    ensures forall x :: x in Ascending(s) <==> x in s
    ensures forall i :: 0 <= i < |Ascending(s)| ==> Ascending(s)[i] in s
    ensures forall i, j :: 0 <= i < j < |Ascending(s)| ==> Ascending(s)[i] < Ascending(s)[j]
    decreases s
  {
    if s != {} {
      var least := Least(s);
      AscendingFirst(s, least);
      AscendingFacts(s - {least});
    }
  }

  /** Taking the least element out of a set takes the first element off its listing. */
  lemma AscendingFirst(s: set<int>, least: int)
    requires IsLeast(least, s)
    ensures Ascending(s) == [least] + Ascending(s - {least})
  {
  }

  /** Lists a set in ascending order. */
  method Sorted(s: set<int>) returns (r: seq<int>)
    ensures r == Ascending(s)
  {
    r := [];
    var pending := s;
    while pending != {}
      invariant Ascending(s) == r + Ascending(pending)
      decreases pending
    {
      ghost var first := Least(pending);
      assert IsLeast(first, pending);
      var least :| least in pending && IsLeast(least, pending);
      AscendingFirst(pending, least);
      r := r + [least];
      pending := pending - {least};
    }
  }
}
