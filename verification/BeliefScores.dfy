/** Dependent evidence cannot amplify: bounds, duplication and order of the log scores. */
module BeliefScores {
  import opened Evidence
  import opened Beliefs
  import Calibration
  import opened Sequences
  import Sorting

  // A cluster moves the odds of two hypotheses no further than its most extreme member.

  /** How far one piece moves the odds of h against k. */
  function Tilt(ln: Ln, p: Piece, h: int, k: int): real {
    LogLikelihood(ln, p, h) - LogLikelihood(ln, p, k)
  }

  ghost predicate TiltWithin(ln: Ln, p: Piece, h: int, k: int, low: real, high: real) {
    0.0 < p.quality && low <= Tilt(ln, p, h, k) <= high
  }

  predicate WithinTimes(low: real, x: real, high: real, scale: real) {
    low * scale <= x <= high * scale
  }

  lemma ScaledTilt(a: real, b: real, q: real, low: real, high: real)
    requires 0.0 < q && low <= a - b <= high
    ensures low * q <= a * q - b * q <= high * q
  {
    assert a * q - b * q == (a - b) * q;
  }

  lemma Extend(bound: real, w: real, q: real)
    ensures bound * w + bound * q == bound * (w + q)
  {
  }

  lemma {:induction false} SumsWithin(ln: Ln, pieces: seq<Piece>, h: int, k: int, low: real, high: real)
    requires forall p :: p in pieces ==> TiltWithin(ln, p, h, k, low, high)
    ensures var moved := SumOver(Weighed(ln, h), pieces) - SumOver(Weighed(ln, k), pieces);
      WithinTimes(low, moved, high, Weight(pieces))
    ensures 0.0 <= Weight(pieces) && (pieces != [] ==> 0.0 < Weight(pieces))
  {
    if pieces != [] {
      var init, last := pieces[..|pieces| - 1], pieces[|pieces| - 1];
      SumsWithin(ln, init, h, k, low, high);
      assert last in pieces && TiltWithin(ln, last, h, k, low, high);
      ScaledTilt(LogLikelihood(ln, last, h), LogLikelihood(ln, last, k), last.quality, low, high);
      Extend(low, Weight(init), last.quality);
      Extend(high, Weight(init), last.quality);
    }
  }

  /** The mean of the differences is the difference of the means. */
  lemma MeansWithin(a: real, b: real, w: real, scale: real, low: real, high: real)
    requires 0.0 < w && 0.0 <= scale && WithinTimes(low, a - b, high, w)
    ensures WithinTimes(low, ScaledMean(a, w, scale) - ScaledMean(b, w, scale), high, scale)
  {
    var x, y := a / w, b / w;
    Calibration.RatioBounds(low, high, a - b, w);
    assert (a - b) / w == x - y;
    Between(low, x - y, high, scale);
    assert (x - y) * scale == x * scale - y * scale;
  }

  lemma Between(low: real, x: real, high: real, s: real)
    requires low <= x <= high && 0.0 <= s
    ensures low * s <= x * s <= high * s
  {
  }

  lemma {:induction false} StrongestBounds(pieces: seq<Piece>, p: Piece)
    requires p in pieces
    ensures p.quality <= Strongest(pieces)
  {
    var init, last := pieces[..|pieces| - 1], pieces[|pieces| - 1];
    assert pieces == init + [last];
    if p in init {
      StrongestBounds(init, p);
    }
  }

  lemma {:induction false} StrongestAttained(pieces: seq<Piece>) returns (i: nat)
    requires pieces != [] && forall p :: p in pieces ==> 0.0 < p.quality
    ensures i < |pieces| && pieces[i].quality == Strongest(pieces)
  {
    var init, last := pieces[..|pieces| - 1], pieces[|pieces| - 1];
    assert last in pieces;
    if init == [] || Strongest(init) < last.quality {
      i := |init|;
    } else {
      forall p | p in init
        ensures 0.0 < p.quality
      {
        assert p in pieces;
      }
      i := StrongestAttained(init);
    }
  }

  /** However many members a cluster has, it moves the odds of two hypotheses by at least its confidence
      times the least member's tilt, and at most its confidence times the greatest. */
  lemma ClusterCannotAmplify(ln: Ln, pieces: seq<Piece>, h: int, k: int, low: real, high: real)
    requires pieces != [] && forall p :: p in pieces ==> TiltWithin(ln, p, h, k, low, high)
    ensures WithinTimes(low, Contribution(ln, pieces, h) - Contribution(ln, pieces, k), high, Strongest(pieces))
  {
    var a, b := SumOver(Weighed(ln, h), pieces), SumOver(Weighed(ln, k), pieces);
    SumsWithin(ln, pieces, h, k, low, high);
    forall p | p in pieces
      ensures 0.0 < p.quality
    {
      assert TiltWithin(ln, p, h, k, low, high);
    }
    StrongestBounds(pieces, pieces[0]);
    MeansWithin(a, b, Weight(pieces), Strongest(pieces), low, high);
  }

  // Repeating a cluster's evidence changes nothing.

  lemma {:induction false} SumSplit(f: Piece -> real, a: seq<Piece>, b: seq<Piece>)
    ensures SumOver(f, a + b) == SumOver(f, a) + SumOver(f, b)
  {
    if b == [] {
      assert a + b == a;
    } else {
      SumSplit(f, a, b[..|b| - 1]);
      assert (a + b)[..|a + b| - 1] == a + b[..|b| - 1];
    }
  }

  lemma SumWithout(f: Piece -> real, xs: seq<Piece>, j: nat)
    requires j < |xs|
    ensures SumOver(f, xs) == SumOver(f, Without(xs, j)) + f(xs[j])
  {
    Spliced(xs, j);
    SumSplit(f, xs[..j] + [xs[j]], xs[j + 1..]);
    SumNext(f, xs[..j], xs[j]);
    SumSplit(f, xs[..j], xs[j + 1..]);
  }

  lemma SumNext(f: Piece -> real, xs: seq<Piece>, next: Piece)
    ensures SumOver(f, xs + [next]) == SumOver(f, xs) + f(next)
  {
    assert (xs + [next])[..|xs|] == xs;
  }

  lemma {:induction false} SumPermuted(f: Piece -> real, a: seq<Piece>, b: seq<Piece>)
    requires multiset(a) == multiset(b)
    ensures SumOver(f, a) == SumOver(f, b)
    decreases |a|
  {
    if a == [] {
      assert |multiset(b)| == |b|;
    } else {
      var j := TakeOutOfBoth(a, b);
      SumPermuted(f, a[..|a| - 1], Without(b, j));
      SumWithout(f, b, j);
    }
  }

  /** x added to itself n times. */
  function Times(n: nat, x: real): real {
    if n == 0 then 0.0 else Times(n - 1, x) + x
  }

  lemma {:induction false} TimesIsProduct(n: nat, x: real)
    ensures Times(n, x) == n as real * x
  {
    if n > 0 {
      TimesIsProduct(n - 1, x);
      assert (n - 1) as real * x + x == n as real * x;
    }
  }

  lemma {:induction false} SumRepeated(f: Piece -> real, xs: seq<Piece>, n: nat)
    ensures SumOver(f, Repeated(xs, n)) == Times(n, SumOver(f, xs))
  {
    if n > 0 {
      SumRepeated(f, xs, n - 1);
      SumSplit(f, Repeated(xs, n - 1), xs);
    }
  }

  lemma CancelFactor(n: real, s: real, w: real)
    requires 0.0 < n && w != 0.0
    ensures n * w != 0.0 && (n * s) / (n * w) == s / w
  {
    var ratio := s / w;
    assert ratio * w == s;
    assert ratio * (n * w) == n * s;
  }

  /** `other` is the same evidence n times over, in any order. */
  ghost predicate Copies(pieces: seq<Piece>, other: seq<Piece>, n: nat) {
    0 < n && multiset(other) == multiset(Repeated(pieces, n))
  }

  lemma StrongestOfCopies(pieces: seq<Piece>, other: seq<Piece>, n: nat)
    requires Copies(pieces, other, n) && forall p :: p in pieces ==> 0.0 < p.quality
    ensures Strongest(other) == Strongest(pieces)
  {
    RepeatedElements(pieces, n);
    forall p
      ensures p in other <==> p in pieces
    {
      assert p in other <==> p in multiset(other);
      assert p in Repeated(pieces, n) <==> p in multiset(Repeated(pieces, n));
    }
    if pieces != [] {
      var i := StrongestAttained(pieces);
      assert pieces[i] in other;
      StrongestBounds(other, pieces[i]);
      var j := StrongestAttained(other);
      assert other[j] in pieces;
      StrongestBounds(pieces, other[j]);
    }
  }

  lemma CopiesScale(f: Piece -> real, pieces: seq<Piece>, other: seq<Piece>, n: nat)
    requires Copies(pieces, other, n)
    ensures SumOver(f, other) == Times(n, SumOver(f, pieces))
  {
    SumPermuted(f, other, Repeated(pieces, n));
    SumRepeated(f, pieces, n);
  }

  lemma ContributionOfCopies(ln: Ln, pieces: seq<Piece>, other: seq<Piece>, n: nat, h: int)
    requires Copies(pieces, other, n) && forall p :: p in pieces ==> 0.0 < p.quality
    ensures Contribution(ln, other, h) == Contribution(ln, pieces, h)
  {
    CopiesScale(Weighed(ln, h), pieces, other, n);
    CopiesScale(QualityOf(), pieces, other, n);
    StrongestOfCopies(pieces, other, n);
    MeanOfCopies(n, SumOver(Weighed(ln, h), pieces), Weight(pieces), Strongest(pieces));
  }

  lemma MeanOfCopies(n: nat, s: real, w: real, scale: real)
    requires 0 < n
    ensures ScaledMean(Times(n, s), Times(n, w), scale) == ScaledMean(s, w, scale)
  {
    TimesIsProduct(n, s);
    TimesIsProduct(n, w);
    if w != 0.0 {
      CancelFactor(n as real, s, w);
    }
  }

  // From observations to clusters.

  ghost predicate Counts(review: Review, o: Observation)
    requires review.Valid()
  {
    o.availableAt <= review.asof && 0.0 < review.EffectiveQuality(o)
  }

  ghost function Part(review: Review, c: int): Observation -> seq<Piece>
    requires review.Valid()
  {
    (o: Observation) => if review.Valid() && o.cluster == c && Counts(review, o) then [PieceOf(review, o)] else []
  }

  /** The evidence a cluster contributes, in the order given. */
  ghost function PiecesOf(review: Review, observations: seq<Observation>, c: int): seq<Piece>
    requires review.Valid()
  {
    Flat(Part(review, c), observations)
  }

  lemma PiecesNext(review: Review, observations: seq<Observation>, next: Observation, c: int)
    requires review.Valid()
    ensures PiecesOf(review, observations + [next], c)
      == PiecesOf(review, observations, c) + if next.cluster == c && Counts(review, next) then [PieceOf(review, next)]
        else []
  {
    FlatNext(Part(review, c), observations, next);
  }

  lemma AvailablePieces(review: Review, observations: seq<Observation>, c: int)
    requires review.Valid()
    ensures PiecesOf(review, AvailableBy(observations, review.asof), c) == PiecesOf(review, observations, c)
  {
    FlatKept(AvailableAt(review.asof), Part(review, c), observations);
  }

  lemma CountingPieces(review: Review, observations: seq<Observation>, c: int)
    requires review.Valid()
    ensures PiecesOf(review, Counting(review, observations), c) == PiecesOf(review, observations, c)
  {
    FlatKept(Weighty(review), Part(review, c), observations);
  }

  lemma {:induction false} ClusteredPieces(review: Review, observations: seq<Observation>, c: int)
    requires review.Valid() && forall o :: o in observations ==> Counts(review, o)
    ensures c in Clustered(review, observations) <==> PiecesOf(review, observations, c) != []
    ensures c in Clustered(review, observations) ==>
      Clustered(review, observations)[c] == PiecesOf(review, observations, c)
  {
    if observations != [] {
      var init, last := observations[..|observations| - 1], observations[|observations| - 1];
      assert observations == init + [last] && last in observations;
      ClusteredPieces(review, init, c);
      PiecesNext(review, init, last, c);
    }
  }

  /** Sorting and filtering only rearrange a cluster's evidence. */
  lemma ClusterHolds(review: Review, c: int)
    requires review.Valid()
    ensures c in Clustered(review, review.Effective()) <==> PiecesOf(review, review.observations, c) != []
    ensures c in Clustered(review, review.Effective()) ==>
      multiset(Clustered(review, review.Effective())[c]) == multiset(PiecesOf(review, review.observations, c))
  {
    var available, visible := AvailableBy(review.observations, review.asof), review.Visible();
    AvailablePieces(review, review.observations, c);
    EarlierIsOrder();
    Sorting.SortedByFacts(available, Earlier);
    FlatPermuted(Part(review, c), visible, available);
    CountingPieces(review, visible, c);
    EffectiveElements(review);
    ClusteredPieces(review, review.Effective(), c);
    var a, b := PiecesOf(review, visible, c), PiecesOf(review, review.observations, c);
    assert |multiset(a)| == |a| && |multiset(b)| == |b|;
  }

  lemma {:induction false} PiecesPositive(review: Review, observations: seq<Observation>, c: int)
    requires review.Valid()
    ensures forall p :: p in PiecesOf(review, observations, c) ==> 0.0 < p.quality
  {
    if observations != [] {
      var init, last := observations[..|observations| - 1], observations[|observations| - 1];
      assert observations == init + [last];
      PiecesPositive(review, init, c);
      PiecesNext(review, init, last, c);
    }
  }

  ghost predicate SameIn(one: Review, other: Review, c: int)
    requires one.Valid() && other.Valid()
  {
    exists n: nat :: Copies(PiecesOf(one, one.observations, c), PiecesOf(other, other.observations, c), n)
  }

  /** In every cluster the second review holds the same evidence as the first, some number of times over. */
  ghost predicate SameEvidence(one: Review, other: Review)
    requires one.Valid() && other.Valid()
  {
    forall c :: SameIn(one, other, c)
  }

  /** The same evidence, reordered or repeated cluster by cluster, gives the same log scores. */
  lemma SameEvidenceSameScores(ln: Ln, one: Review, other: Review, prior: real, h: int)
    requires one.Valid() && other.Valid() && SameEvidence(one, other)
    ensures LogScore(ln, prior, Clustered(one, one.Effective()), h)
      == LogScore(ln, prior, Clustered(other, other.Effective()), h)
  {
    var a, b := Clustered(one, one.Effective()), Clustered(other, other.Effective());
    forall c
      ensures c in a <==> c in b
      ensures c in a ==> Contribution(ln, a[c], h) == Contribution(ln, b[c], h)
    {
      ClusterContributes(ln, one, other, c, h);
    }
    assert Contributions(ln, a, h) == Contributions(ln, b, h);
  }

  lemma ClusterContributes(ln: Ln, one: Review, other: Review, c: int, h: int)
    requires one.Valid() && other.Valid() && SameEvidence(one, other)
    ensures c in Clustered(one, one.Effective()) <==> c in Clustered(other, other.Effective())
    ensures c in Clustered(one, one.Effective()) ==>
      Contribution(ln, Clustered(one, one.Effective())[c], h)
        == Contribution(ln, Clustered(other, other.Effective())[c], h)
  {
    var x, y := PiecesOf(one, one.observations, c), PiecesOf(other, other.observations, c);
    assert SameIn(one, other, c);
    var n: nat :| Copies(x, y, n);
    ClusterHolds(one, c);
    ClusterHolds(other, c);
    CopiesEmpty(x, y, n);
    PiecesPositive(one, one.observations, c);
    PiecesPositive(other, other.observations, c);
    if x != [] {
      var u, v := Clustered(one, one.Effective())[c], Clustered(other, other.Effective())[c];
      OnceOver(x, u);
      OnceOver(y, v);
      ContributionOfCopies(ln, x, u, 1, h);
      ContributionOfCopies(ln, y, v, 1, h);
      ContributionOfCopies(ln, x, y, n, h);
    }
  }

  lemma OnceOver(x: seq<Piece>, y: seq<Piece>)
    requires multiset(x) == multiset(y)
    ensures Copies(x, y, 1)
  {
    assert Repeated(x, 1) == Repeated(x, 0) + x == x;
  }

  lemma CopiesEmpty(x: seq<Piece>, y: seq<Piece>, n: nat)
    requires Copies(x, y, n)
    ensures x == [] <==> y == []
  {
    RepeatedElements(x, n);
    if y != [] {
      assert y[0] in multiset(y);
      assert y[0] in Repeated(x, n);
    }
    if x != [] {
      assert x[0] in multiset(Repeated(x, n));
      assert x[0] in multiset(y);
    }
  }

  /** Scores do not depend on the order in which observations are given. */
  lemma OrderChangesNoScore(ln: Ln, one: Review, other: Review, prior: real, h: int)
    requires one.Valid() && other == one.(observations := other.observations)
    requires multiset(one.observations) == multiset(other.observations)
    ensures LogScore(ln, prior, Clustered(one, one.Effective()), h)
      == LogScore(ln, prior, Clustered(other, other.Effective()), h)
  {
    forall c
      ensures SameIn(one, other, c)
    {
      SameReviewPieces(one, other, one.observations, c);
      FlatPermuted(Part(other, c), one.observations, other.observations);
      OnceOver(PiecesOf(one, one.observations, c), PiecesOf(other, other.observations, c));
    }
    SameEvidenceSameScores(ln, one, other, prior, h);
  }

  /** What an observation says does not depend on its id, nor on the review's other observations. */
  lemma SameReviewPieces(one: Review, other: Review, observations: seq<Observation>, c: int)
    requires one.Valid() && other == one.(observations := other.observations)
    ensures PiecesOf(one, observations, c) == PiecesOf(other, observations, c)
  {
    FlatAgrees(Part(one, c), Part(other, c), observations, observations);
  }

  /** b repeats what a says, under another id. */
  predicate Duplicate(a: Observation, b: Observation) {
    b == a.(id := b.id)
  }

  function InCluster(c: int): Observation -> bool {
    (o: Observation) => o.cluster == c
  }

  function MembersOf(observations: seq<Observation>, c: int): seq<Observation> {
    Kept(InCluster(c), observations)
  }

  ghost predicate AllDuplicates(originals: seq<Observation>, copies: seq<Observation>) {
    |originals| == |copies| && forall i :: 0 <= i < |copies| ==> Duplicate(originals[i], copies[i])
  }

  lemma DuplicatePieces(review: Review, originals: seq<Observation>, copies: seq<Observation>, c: int)
    requires review.Valid() && AllDuplicates(originals, copies)
    ensures PiecesOf(review, originals, c) == PiecesOf(review, copies, c)
  {
    forall i | 0 <= i < |copies|
      ensures Part(review, c)(originals[i]) == Part(review, c)(copies[i])
    {
      assert Duplicate(originals[i], copies[i]);
    }
    FlatAgrees(Part(review, c), Part(review, c), originals, copies);
  }

  lemma MemberPieces(review: Review, observations: seq<Observation>, cluster: int, c: int)
    requires review.Valid()
    ensures PiecesOf(review, MembersOf(observations, cluster), c) == if c == cluster
      then PiecesOf(review, observations, c) else []
  {
    if c == cluster {
      FlatKept(InCluster(cluster), Part(review, c), observations);
    } else {
      KeptElements(InCluster(cluster), observations);
      FlatNothing(Part(review, c), MembersOf(observations, cluster));
    }
  }

  lemma {:induction false} FlatNothing(f: Observation -> seq<Piece>, xs: seq<Observation>)
    requires forall x :: x in xs ==> f(x) == []
    ensures Flat(f, xs) == []
  {
    if xs != [] {
      FlatNothing(f, xs[..|xs| - 1]);
      assert xs[|xs| - 1] in xs;
    }
  }

  lemma {:induction false} RepeatedFirst(x: seq<Piece>, n: nat)
    ensures multiset(x + Repeated(x, n)) == multiset(Repeated(x, n + 1))
  {
  }

  lemma {:induction false} RepeatedNothing(n: nat)
    ensures Repeated<Piece>([], n) == []
  {
    if n > 0 {
      RepeatedNothing(n - 1);
    }
  }

  /** Adding n further copies of every member of a cluster, under fresh ids, changes no log score. */
  lemma DuplicationChangesNoScore(ln: Ln, one: Review, other: Review, cluster: int, copies: seq<Observation>,
      n: nat, prior: real, h: int)
    requires one.Valid() && AllDuplicates(Repeated(MembersOf(one.observations, cluster), n), copies)
    requires other == one.(observations := one.observations + copies)
    ensures LogScore(ln, prior, Clustered(one, one.Effective()), h)
      == LogScore(ln, prior, Clustered(other, other.Effective()), h)
  {
    var members := MembersOf(one.observations, cluster);
    forall c
      ensures SameIn(one, other, c)
    {
      var x := PiecesOf(one, one.observations, c);
      SameReviewPieces(one, other, one.observations, c);
      FlatSplit(Part(other, c), one.observations, copies);
      DuplicatePieces(other, Repeated(members, n), copies, c);
      FlatRepeated(Part(other, c), members, n);
      MemberPieces(other, one.observations, cluster, c);
      RepeatedNothing(n);
      if c == cluster {
        RepeatedFirst(x, n);
        assert Copies(x, PiecesOf(other, other.observations, c), n + 1);
      } else {
        OnceOver(x, PiecesOf(other, other.observations, c));
      }
    }
    SameEvidenceSameScores(ln, one, other, prior, h);
  }
}
