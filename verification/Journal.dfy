/** The broker callback journal: archives each event once and merges reordered statuses by rank. */
module Journal {
  import opened Wrappers
  import opened Market
  import opened PaperBroker

  datatype BrokerCallback = BrokerCallback(eventId: string, orderId: nat, status: BrokerOrderStatus, occurredAt: Time)

  predicate Terminal(status: BrokerOrderStatus) {
    status.Filled? || status.Cancelled? || status.Rejected?
  }

  function Rank(status: BrokerOrderStatus): nat {
    match status
    case Submitted => 0
    case Unknown => 1
    case PartiallyFilled => 2
    case _ => 3
  }

  /** A callback moves an order forward unless the order is finished or further along. */
  predicate Advances(current: Option<BrokerOrderStatus>, next: BrokerOrderStatus) {
    current.Some? ==> !Terminal(current.value) && Rank(current.value) <= Rank(next)
  }

  datatype Log = Log(eventIds: set<string>, callbacks: seq<BrokerCallback>, statuses: map<nat, BrokerOrderStatus>) {
    function Status(orderId: nat): Option<BrokerOrderStatus> {
      if orderId in statuses then Some(statuses[orderId]) else None
    }

    function Record(callback: BrokerCallback): Log {
      if callback.eventId in eventIds then this
      else
        Log(eventIds + {callback.eventId}, callbacks + [callback],
            if Advances(Status(callback.orderId), callback.status) then statuses[callback.orderId := callback.status]
            else statuses)
    }
  }

  const EMPTY := Log({}, [], map[])

  /** The journal after a delivery, in its order and with its repetitions. */
  function Delivered(callbacks: seq<BrokerCallback>): Log {
    if callbacks == [] then EMPTY
    else Delivered(callbacks[..|callbacks| - 1]).Record(callbacks[|callbacks| - 1])
  }

  lemma DeliveredNext(callbacks: seq<BrokerCallback>, next: BrokerCallback)
    ensures Delivered(callbacks + [next]) == Delivered(callbacks).Record(next)
  {
    assert (callbacks + [next])[..|callbacks|] == callbacks;
  }

  /** Event ids identify callbacks. */
  ghost predicate Identified(callbacks: set<BrokerCallback>) {
    forall a, b :: a in callbacks && b in callbacks && a.eventId == b.eventId ==> a == b
  }

  /** No order is reported finished in two different ways. */
  ghost predicate OneEnding(callbacks: set<BrokerCallback>) {
    forall a, b :: a in callbacks && b in callbacks && a.orderId == b.orderId && Terminal(a.status)
      && Terminal(b.status)
      ==> a.status == b.status
  }

  ghost function Reported(callbacks: seq<BrokerCallback>): set<BrokerCallback> {
    set c | c in callbacks
  }

  /** What the statuses reported for an order settle on: nothing when there are none, otherwise a
      reported status no other outranks. */
  ghost predicate Settles(callbacks: set<BrokerCallback>, orderId: nat, status: Option<BrokerOrderStatus>) {
    match status
    case None => forall c :: c in callbacks ==> c.orderId != orderId
    case Some(s) =>
      && (exists c :: c in callbacks && c.orderId == orderId && c.status == s)
      && forall c :: c in callbacks && c.orderId == orderId ==> Rank(c.status) <= Rank(s)
  }

  lemma RanksIdentify(a: BrokerOrderStatus, b: BrokerOrderStatus)
    ensures Rank(a) == Rank(b) ==> a == b || (Terminal(a) && Terminal(b))
  {
  }

  /** Under one ending there is only one status to settle on. */
  lemma SettlesOnce(callbacks: set<BrokerCallback>, orderId: nat, a: Option<BrokerOrderStatus>,
      b: Option<BrokerOrderStatus>)
    requires OneEnding(callbacks) && Settles(callbacks, orderId, a) && Settles(callbacks, orderId, b)
    ensures a == b
  {
    if a.Some? && b.Some? {
      RanksIdentify(a.value, b.value);
    }
  }

  ghost predicate SettledFor(callbacks: seq<BrokerCallback>, orderId: nat) {
    Settles(Reported(callbacks), orderId, Delivered(callbacks).Status(orderId))
  }

  lemma {:induction false} IdsSeen(callbacks: seq<BrokerCallback>, id: string)
    ensures id in Delivered(callbacks).eventIds <==> exists c :: c in callbacks && c.eventId == id
  {
    if callbacks != [] {
      IdsSeen(callbacks[..|callbacks| - 1], id);
      assert callbacks == callbacks[..|callbacks| - 1] + [callbacks[|callbacks| - 1]];
    }
  }

  lemma SettlesNext(callbacks: set<BrokerCallback>, next: BrokerCallback, orderId: nat,
      current: Option<BrokerOrderStatus>)
    requires Settles(callbacks, orderId, current) && next.orderId == orderId
    ensures Settles(callbacks + {next}, orderId, if Advances(current, next.status) then Some(next.status) else current)
  {
    var after := callbacks + {next};
    assert next in after;
    if current.Some? && !Advances(current, next.status) {
      var c :| c in callbacks && c.orderId == orderId && c.status == current.value;
      assert c in after;
      assert Rank(next.status) <= Rank(current.value);
    }
  }

  lemma SettlesOther(callbacks: set<BrokerCallback>, next: BrokerCallback, orderId: nat,
      current: Option<BrokerOrderStatus>)
    requires Settles(callbacks, orderId, current) && next.orderId != orderId
    ensures Settles(callbacks + {next}, orderId, current)
  {
    if current.Some? {
      var c :| c in callbacks && c.orderId == orderId && c.status == current.value;
      assert c in callbacks + {next};
    }
  }

  /** After any delivery of identified callbacks each order has a reported status none outranks. */
  lemma {:induction false} DeliverySettles(callbacks: seq<BrokerCallback>, orderId: nat)
    requires Identified(Reported(callbacks))
    ensures SettledFor(callbacks, orderId)
  {
    if callbacks == [] {
    } else {
      var init, next := callbacks[..|callbacks| - 1], callbacks[|callbacks| - 1];
      assert callbacks == init + [next];
      assert Reported(callbacks) == Reported(init) + {next};
      DeliverySettles(init, orderId);
      IdsSeen(init, next.eventId);
      var current := Delivered(init).Status(orderId);
      if next.eventId in Delivered(init).eventIds {
        var seen :| seen in init && seen.eventId == next.eventId;
        assert seen in Reported(callbacks) && next in Reported(callbacks);
        assert Reported(callbacks) == Reported(init);
      } else if next.orderId == orderId {
        SettlesNext(Reported(init), next, orderId, current);
      } else {
        SettlesOther(Reported(init), next, orderId, current);
      }
    }
  }

  /** Confluence: when no order has two different endings, every delivery order with every
      duplication leaves every order with the same status. */
  lemma Confluent(one: seq<BrokerCallback>, other: seq<BrokerCallback>, orderId: nat)
    requires Reported(one) == Reported(other) && Identified(Reported(one)) && OneEnding(Reported(one))
    ensures Delivered(one).Status(orderId) == Delivered(other).Status(orderId)
  {
    DeliverySettles(one, orderId);
    DeliverySettles(other, orderId);
    SettlesOnce(Reported(one), orderId, Delivered(one).Status(orderId), Delivered(other).Status(orderId));
  }

  /** One callback never moves an order back, and never moves a finished order at all. */
  lemma RankNeverFalls(log: Log, next: BrokerCallback, orderId: nat)
    requires log.Status(orderId).Some?
    ensures log.Record(next).Status(orderId).Some?
    ensures Rank(log.Status(orderId).value) <= Rank(log.Record(next).Status(orderId).value)
    ensures Terminal(log.Status(orderId).value) ==> log.Record(next).Status(orderId) == log.Status(orderId)
  {
  }

  lemma {:induction false} EndingKept(first: seq<BrokerCallback>, rest: seq<BrokerCallback>, orderId: nat)
    requires Delivered(first).Status(orderId).Some? && Terminal(Delivered(first).Status(orderId).value)
    ensures Delivered(first + rest).Status(orderId) == Delivered(first).Status(orderId)
  {
    if rest == [] {
      assert first + rest == first;
    } else {
      var init, last := rest[..|rest| - 1], rest[|rest| - 1];
      EndingKept(first, init, orderId);
      assert first + rest == (first + init) + [last];
      DeliveredNext(first + init, last);
    }
  }

  /** The condition is needed: an order with two endings keeps whichever was delivered first. */
  lemma TwoEndingsDiverge(callbacks: seq<BrokerCallback>, a: BrokerCallback, b: BrokerCallback)
    requires a in callbacks && b in callbacks && a.orderId == b.orderId
    requires Terminal(a.status) && Terminal(b.status) && a.status != b.status
    ensures Reported([a] + callbacks) == Reported([b] + callbacks) == Reported(callbacks)
    ensures Delivered([a] + callbacks).Status(a.orderId) == Some(a.status)
    ensures Delivered([b] + callbacks).Status(a.orderId) == Some(b.status)
  {
    DeliveredNext([], a);
    DeliveredNext([], b);
    EndingKept([a], callbacks, a.orderId);
    EndingKept([b], callbacks, a.orderId);
  }

  /** Delivery order is irrelevant exactly when no order has two different endings. */
  lemma ConfluentExactly(callbacks: seq<BrokerCallback>)
    requires Identified(Reported(callbacks))
    ensures OneEnding(Reported(callbacks)) <==>
      forall one, other, orderId :: Reported(one) == Reported(callbacks) && Reported(other) == Reported(callbacks) ==>
        Delivered(one).Status(orderId) == Delivered(other).Status(orderId)
  {
    if OneEnding(Reported(callbacks)) {
      forall one, other, orderId | Reported(one) == Reported(callbacks) && Reported(other) == Reported(callbacks)
        ensures Delivered(one).Status(orderId) == Delivered(other).Status(orderId)
      {
        Confluent(one, other, orderId);
      }
    } else {
      var a, b :| a in Reported(callbacks) && b in Reported(callbacks) && a.orderId == b.orderId
        && Terminal(a.status) && Terminal(b.status) && a.status != b.status;
      TwoEndingsDiverge(callbacks, a, b);
      assert Delivered([a] + callbacks).Status(a.orderId) != Delivered([b] + callbacks).Status(a.orderId);
    }
  }

  /** The archive holds every delivered event exactly once. */
  lemma {:induction false} ArchivedOnce(callbacks: seq<BrokerCallback>)
    requires Identified(Reported(callbacks))
    ensures Reported(Delivered(callbacks).callbacks) == Reported(callbacks)
    ensures var archive := Delivered(callbacks).callbacks;
      forall i, j :: 0 <= i < j < |archive| ==> archive[i].eventId != archive[j].eventId
  {
    if callbacks != [] {
      var init, next := callbacks[..|callbacks| - 1], callbacks[|callbacks| - 1];
      assert callbacks == init + [next];
      assert Reported(callbacks) == Reported(init) + {next};
      ArchivedOnce(init);
      IdsSeen(init, next.eventId);
      var before := Delivered(init).callbacks;
      if next.eventId in Delivered(init).eventIds {
        var seen :| seen in init && seen.eventId == next.eventId;
        assert seen in Reported(callbacks) && next in Reported(callbacks);
      } else {
        forall i | 0 <= i < |before|
          ensures before[i].eventId != next.eventId
        {
          assert before[i] in Reported(before);
        }
        assert Reported(before + [next]) == Reported(before) + {next};
      }
    }
  }

  class BrokerEventJournal {
    var eventIds: set<string>
    var callbacks: seq<BrokerCallback>
    var statuses: map<nat, BrokerOrderStatus>

    ghost function State(): Log
      reads this
    {
      Log(eventIds, callbacks, statuses)
    }

    constructor ()
      ensures State() == EMPTY
    {
      eventIds, callbacks, statuses := {}, [], map[];
    }

    /** Returns whether the order's status was written. */
    method Record(callback: BrokerCallback) returns (written: bool)
      modifies this
      ensures State() == old(State()).Record(callback)
      ensures written <==>
        callback.eventId !in old(eventIds) && Advances(old(State()).Status(callback.orderId), callback.status)
    {
      if callback.eventId in eventIds {
        return false;
      }
      eventIds := eventIds + {callback.eventId};
      callbacks := callbacks + [callback];
      if callback.orderId !in statuses
         || (!Terminal(statuses[callback.orderId]) && Rank(callback.status) >= Rank(statuses[callback.orderId])) {
        statuses := statuses[callback.orderId := callback.status];
        return true;
      }
      return false;
    }

    method Status(orderId: nat) returns (status: Option<BrokerOrderStatus>)
      ensures status == State().Status(orderId)
    {
      return if orderId in statuses then Some(statuses[orderId]) else None;
    }
  }
}
