/** Point-in-time lookup: only records available by a time are visible, and the one of greatest
    precedence wins. Keys, values, sources and record ids are integers;
    only equality and order matter. */
module PointInTime {
  import opened Wrappers
  import opened Market
  import opened Sequences

  datatype Record = Record(
    key: int, value: int, availableAt: Time, ingestedAt: Time, revision: nat, source: int, sourceRecordId: int)

  datatype Identity = Identity(key: int, source: int, sourceRecordId: int, revision: nat)

  datatype TableError = DuplicateIdentity

  function IdentityOf(r: Record): Identity {
    Identity(r.key, r.source, r.sourceRecordId, r.revision)
  }

  ghost predicate DistinctIdentities(records: seq<Record>) {
    forall i, j :: 0 <= i < j < |records| ==> IdentityOf(records[i]) != IdentityOf(records[j])
  }

  /** The constructor's check. */
  method CheckIdentities(records: seq<Record>) returns (r: Result<(), TableError>)
    ensures r.Ok? <==> DistinctIdentities(records)
  {
    var identities: set<Identity> := {};
    for i := 0 to |records|
      invariant forall id :: id in identities <==> exists j :: 0 <= j < i && IdentityOf(records[j]) == id
      invariant DistinctIdentities(records[..i])
    {
      if IdentityOf(records[i]) in identities {
        return Err(DuplicateIdentity);
      }
      identities := identities + {IdentityOf(records[i])};
    }
    assert records[..|records|] == records;
    return Ok(());
  }

  /** a's (available_at, revision, ingested_at, source record id) is greater, lexicographically. */
  predicate Outranks(a: Record, b: Record) {
    if a.availableAt != b.availableAt then a.availableAt > b.availableAt
    else if a.revision != b.revision then a.revision > b.revision
    else if a.ingestedAt != b.ingestedAt then a.ingestedAt > b.ingestedAt
    else a.sourceRecordId > b.sourceRecordId
  }

  function VisibleBy(t: Time): Record -> bool {
    (r: Record) => r.availableAt <= t
  }

  function RecordsAsOf(records: seq<Record>, t: Time): seq<Record> {
    Kept(VisibleBy(t), records)
  }

  /** The dictionary after merging records in order; a tie keeps the earlier record. */
  function Merged(records: seq<Record>): map<int, Record> {
    if records == [] then map[]
    else
      var before, last := Merged(records[..|records| - 1]), records[|records| - 1];
      if last.key !in before || Outranks(last, before[last.key]) then before[last.key := last] else before
  }

  function Latest(records: seq<Record>, t: Time): map<int, Record> {
    Merged(RecordsAsOf(records, t))
  }

  method LatestByKey(records: seq<Record>, t: Time) returns (latest: map<int, Record>)
    ensures latest == Latest(records, t)
  {
    latest := map[];
    var visible := RecordsAsOf(records, t);
    for i := 0 to |visible|
      invariant latest == Merged(visible[..i])
    {
      var record := visible[i];
      assert visible[..i + 1][..i] == visible[..i];
      if record.key !in latest || Outranks(record, latest[record.key]) {
        latest := latest[record.key := record];
      }
    }
    assert visible[..|visible|] == visible;
  }

  lemma VisibleExactly(records: seq<Record>, t: Time)
    ensures forall r :: r in RecordsAsOf(records, t) <==> r in records && r.availableAt <= t
  {
    KeptElements(VisibleBy(t), records);
  }

  /** r is a record of the key that no record of the key outranks. */
  ghost predicate Greatest(records: seq<Record>, key: int, r: Record) {
    r in records && r.key == key && forall other :: other in records && other.key == key ==> !Outranks(other, r)
  }

  lemma {:induction false} MergedGreatest(records: seq<Record>, key: int)
    ensures key in Merged(records) <==> exists r :: r in records && r.key == key
    ensures key in Merged(records) ==> Greatest(records, key, Merged(records)[key])
  {
    if records != [] {
      var init, last := records[..|records| - 1], records[|records| - 1];
      assert records == init + [last];
      MergedGreatest(init, key);
    }
  }

  /** For each key the answer is the greatest record among those available by t. */
  lemma LatestIsGreatest(records: seq<Record>, t: Time, key: int)
    ensures key in Latest(records, t) <==> exists r :: r in records && r.key == key && r.availableAt <= t
    ensures key in Latest(records, t) ==>
      var r := Latest(records, t)[key];
      r in records && r.key == key && r.availableAt <= t
      && forall other :: other in records && other.key == key && other.availableAt <= t ==> !Outranks(other, r)
  {
    var visible := RecordsAsOf(records, t);
    VisibleExactly(records, t);
    MergedGreatest(visible, key);
    if r :| r in records && r.key == key && r.availableAt <= t {
      assert r in visible;
    }
  }

  /** The answer became available last of all visible records of its key; of those then available it has the
      highest revision; of those it was ingested last; and of those it has the greatest source record id. */
  lemma LatestOnFields(records: seq<Record>, t: Time, key: int, other: Record)
    requires key in Latest(records, t) && other in records && other.key == key && other.availableAt <= t
    ensures var answer := Latest(records, t)[key];
      && other.availableAt <= answer.availableAt <= t
      && (other.availableAt == answer.availableAt ==>
           && other.revision <= answer.revision
           && (other.revision == answer.revision ==>
                && other.ingestedAt <= answer.ingestedAt
                && (other.ingestedAt == answer.ingestedAt ==> other.sourceRecordId <= answer.sourceRecordId)))
  {
    LatestIsGreatest(records, t, key);
  }

  /** A record that becomes available after t can be inserted anywhere without changing the answer. */
  lemma FutureRecordsIgnored(records: seq<Record>, i: nat, future: Record, t: Time)
    requires i <= |records| && t < future.availableAt
    ensures Latest(records[..i] + [future] + records[i..], t) == Latest(records, t)
  {
    KeptConcatenation(VisibleBy(t), records[..i] + [future], records[i..]);
    KeptConcatenation(VisibleBy(t), records[..i], [future]);
    KeptConcatenation(VisibleBy(t), records[..i], records[i..]);
    assert records == records[..i] + records[i..];
    assert [future][..0] == [];
    assert RecordsAsOf([future], t) == [];
    assert RecordsAsOf(records[..i], t) + [] == RecordsAsOf(records[..i], t);
  }

  /** No key's answer goes back in time as t grows. */
  lemma AvailabilityMonotone(records: seq<Record>, t: Time, later: Time, key: int)
    requires t <= later && key in Latest(records, t)
    ensures key in Latest(records, later)
    ensures Latest(records, t)[key].availableAt <= Latest(records, later)[key].availableAt
  {
    LatestIsGreatest(records, t, key);
    LatestIsGreatest(records, later, key);
  }

  /** A winner that was already available at t was the winner at t. */
  lemma {:induction false} WinnerSurvives(records: seq<Record>, key: int, t: Time)
    requires key in Merged(records) && Merged(records)[key].availableAt <= t
    ensures key in Latest(records, t) && Latest(records, t)[key] == Merged(records)[key]
  {
    var init, last := records[..|records| - 1], records[|records| - 1];
    assert records == init + [last];
    MergedVisible(init, last, t);
    if key in Merged(init) {
      if Merged(init)[key].availableAt <= t {
        WinnerSurvives(init, key, t);
      }
    } else {
      MergedGreatest(init, key);
      LatestIsGreatest(init, t, key);
    }
  }

  lemma MergedVisible(init: seq<Record>, last: Record, t: Time)
    ensures RecordsAsOf(init + [last], t) == if last.availableAt <= t then RecordsAsOf(init, t) + [last]
      else RecordsAsOf(init, t)
    ensures Merged(RecordsAsOf(init, t) + [last])
      == var before := Merged(RecordsAsOf(init, t));
         if last.key !in before || Outranks(last, before[last.key]) then before[last.key := last] else before
  {
    assert (init + [last])[..|init|] == init;
    var visible := RecordsAsOf(init, t);
    assert (visible + [last])[..|visible|] == visible;
  }

  /** The answer for a key changes only when a record of that key becomes available in between. */
  lemma ChangesOnlyOnArrival(records: seq<Record>, t: Time, later: Time, key: int)
    requires t <= later && forall r :: r in records && r.key == key ==> !(t < r.availableAt <= later)
    ensures key in Latest(records, t) <==> key in Latest(records, later)
    ensures key in Latest(records, t) ==> Latest(records, t)[key] == Latest(records, later)[key]
  {
    LatestIsGreatest(records, t, key);
    LatestIsGreatest(records, later, key);
    if key in Latest(records, later) {
      KeptTwice(VisibleBy(t), VisibleBy(later), records);
      WinnerSurvives(RecordsAsOf(records, later), key, t);
    }
  }

  /** No two different visible records of the key share the greatest precedence. */
  ghost predicate Untied(records: seq<Record>, key: int, t: Time) {
    forall a, b :: Greatest(RecordsAsOf(records, t), key, a) && Greatest(RecordsAsOf(records, t), key, b) ==> a == b
  }

  lemma OrderIrrelevant(one: seq<Record>, other: seq<Record>, key: int, t: Time)
    requires multiset(one) == multiset(other) && Untied(one, key, t)
    ensures key in Latest(one, t) <==> key in Latest(other, t)
    ensures key in Latest(one, t) ==> Latest(one, t)[key] == Latest(other, t)[key]
  {
    VisibleExactly(one, t);
    VisibleExactly(other, t);
    forall r
      ensures r in RecordsAsOf(one, t) <==> r in RecordsAsOf(other, t)
    {
      assert r in one <==> r in multiset(one);
      assert r in other <==> r in multiset(other);
    }
    MergedGreatest(RecordsAsOf(one, t), key);
    MergedGreatest(RecordsAsOf(other, t), key);
    if key in Latest(one, t) {
      assert Greatest(RecordsAsOf(one, t), key, Latest(other, t)[key]);
    }
  }

  /** The same records with one moved to the front. */
  function MovedFirst(records: seq<Record>, i: nat): seq<Record>
    requires i < |records|
  {
    [records[i]] + (records[..i] + records[i + 1..])
  }

  lemma MovedFirstSame(records: seq<Record>, i: nat)
    requires i < |records|
    ensures multiset(MovedFirst(records, i)) == multiset(records)
  {
    assert records == records[..i] + [records[i]] + records[i + 1..];
  }

  lemma {:induction false} FirstGreatestKept(first: Record, rest: seq<Record>)
    requires forall r :: r in rest && r.key == first.key ==> !Outranks(r, first)
    ensures first.key in Merged([first] + rest) && Merged([first] + rest)[first.key] == first
  {
    var all := [first] + rest;
    if rest == [] {
      assert all[..0] == [];
    } else {
      FirstGreatestKept(first, rest[..|rest| - 1]);
      assert all[..|all| - 1] == [first] + rest[..|rest| - 1];
    }
  }

  lemma VisibleFirst(first: Record, rest: seq<Record>, t: Time)
    requires first.availableAt <= t
    ensures RecordsAsOf([first] + rest, t) == [first] + RecordsAsOf(rest, t)
  {
    KeptConcatenation(VisibleBy(t), [first], rest);
    MergedVisible([], first, t);
    assert [] + [first] == [first];
  }

  /** A greatest visible record wins when it is inserted first. */
  lemma InsertedFirstWins(records: seq<Record>, i: nat, t: Time)
    requires i < |records| && Greatest(RecordsAsOf(records, t), records[i].key, records[i])
    ensures var key := records[i].key;
      key in Latest(MovedFirst(records, i), t) && Latest(MovedFirst(records, i), t)[key] == records[i]
  {
    var rest := records[..i] + records[i + 1..];
    VisibleExactly(records, t);
    VisibleExactly(rest, t);
    assert records[i].availableAt <= t;
    VisibleFirst(records[i], rest, t);
    forall r | r in RecordsAsOf(rest, t) && r.key == records[i].key
      ensures !Outranks(r, records[i])
    {
      assert r in rest && r in records;
    }
    FirstGreatestKept(records[i], RecordsAsOf(rest, t));
  }

  ghost predicate SameAnswer(one: seq<Record>, other: seq<Record>, key: int, t: Time) {
    && (key in Latest(one, t) <==> key in Latest(other, t))
    && (key in Latest(one, t) ==> Latest(one, t)[key] == Latest(other, t)[key])
  }

  /** Insertion order is irrelevant for a key exactly when its greatest visible records are not tied.
      Sources do not enter the precedence, so two sources can tie; the first inserted then wins. */
  lemma OrderIrrelevantExactly(records: seq<Record>, key: int, t: Time)
    ensures Untied(records, key, t) <==>
      forall other :: multiset(other) == multiset(records) ==> SameAnswer(records, other, key, t)
  {
    if Untied(records, key, t) {
      forall other | multiset(other) == multiset(records)
        ensures SameAnswer(records, other, key, t)
      {
        OrderIrrelevant(records, other, key, t);
      }
    } else {
      var a, b :| Greatest(RecordsAsOf(records, t), key, a) && Greatest(RecordsAsOf(records, t), key, b) && a != b;
      VisibleExactly(records, t);
      var i :| 0 <= i < |records| && records[i] == a;
      var j :| 0 <= j < |records| && records[j] == b;
      InsertedFirstWins(records, i, t);
      InsertedFirstWins(records, j, t);
      MovedFirstSame(records, i);
      MovedFirstSame(records, j);
      assert !(SameAnswer(records, MovedFirst(records, i), key, t)
        && SameAnswer(records, MovedFirst(records, j), key, t));
    }
  }

  /** Records of one key tie in precedence only if they come from different sources. */
  lemma TiesNeedTwoSources(records: seq<Record>, key: int, t: Time, a: Record, b: Record)
    requires DistinctIdentities(records) && a != b
    requires Greatest(RecordsAsOf(records, t), key, a) && Greatest(RecordsAsOf(records, t), key, b)
    ensures a.source != b.source
  {
    VisibleExactly(records, t);
    var i :| 0 <= i < |records| && records[i] == a;
    var j :| 0 <= j < |records| && records[j] == b;
    assert !Outranks(a, b) && !Outranks(b, a);
    assert i < j ==> IdentityOf(records[i]) != IdentityOf(records[j]);
    assert j < i ==> IdentityOf(records[j]) != IdentityOf(records[i]);
  }

  ghost predicate OneSource(records: seq<Record>, key: int) {
    forall a, b :: a in records && b in records && a.key == key && b.key == key ==> a.source == b.source
  }

  /** A table that takes a key from one source answers for it in whatever order it was filled. */
  lemma OneSourceUntied(records: seq<Record>, key: int, t: Time)
    requires DistinctIdentities(records) && OneSource(records, key)
    ensures Untied(records, key, t)
    ensures forall other :: multiset(other) == multiset(records) ==> SameAnswer(records, other, key, t)
  {
    VisibleExactly(records, t);
    forall a, b | Greatest(RecordsAsOf(records, t), key, a) && Greatest(RecordsAsOf(records, t), key, b)
      ensures a == b
    {
      if a != b {
        TiesNeedTwoSources(records, key, t, a, b);
        assert false;
      }
    }
    OrderIrrelevantExactly(records, key, t);
  }

  /** Any two records that differ in source and value but in nothing else form a table whose answer depends on
      which was inserted first. */
  lemma TwoSourcesTie(a: Record, b: Record, t: Time)
    requires a.source != b.source && b == a.(source := b.source, value := b.value) && a.availableAt <= t
    ensures DistinctIdentities([a, b]) && DistinctIdentities([b, a]) && !Untied([a, b], a.key, t)
    ensures a.key in Latest([a, b], t) && Latest([a, b], t)[a.key] == a
    ensures a.key in Latest([b, a], t) && Latest([b, a], t)[a.key] == b
  {
    VisiblePair(a, b, t);
    VisiblePair(b, a, t);
    FirstGreatestKept(a, [b]);
    FirstGreatestKept(b, [a]);
    assert [a] + [b] == [a, b] && [b] + [a] == [b, a];
    assert Greatest([a, b], a.key, a) && Greatest([a, b], a.key, b);
  }

  lemma VisiblePair(a: Record, b: Record, t: Time)
    requires a.availableAt <= t && b.availableAt <= t
    ensures RecordsAsOf([a, b], t) == [a, b]
  {
    KeptNext(VisibleBy(t), [], a);
    KeptNext(VisibleBy(t), [a], b);
    assert [] + [a] == [a] && [a] + [b] == [a, b];
  }
}
