/** The execution agent over a store and a broker that both survive its crashes. */
module Agent {
  import opened Wrappers
  import opened Market
  import opened PaperBroker
  import opened ExecutionStore
  import opened Sequences

  /** How one pass of the agent's loop over a record ends. A broker call that raises may still
      have taken effect; a crash may fall on either side of the broker call. */
  datatype Fate = Completed | CrashedBeforeSubmit | CrashedAfterSubmit | BrokerRaised(tookEffect: bool)

  datatype Event =
    | Approve(request: BrokerOrderRequest)
    | Handle(key: IdempotencyKey, allowed: bool, fate: Fate, now: Time)
    | PriceSet(symbol: Symbol, price: real)
    | Cancel(id: nat)

  datatype System = System(store: Store, broker: Broker) {
    /** One pass of the agent's loop body over a pending record. */
    function Pass(request: BrokerOrderRequest, allowed: bool, fate: Fate, now: Time): System
      requires request.key in store.records
    {
      if fate.CrashedBeforeSubmit? then this
      else if !allowed then this.(store := store.MarkFailed(request, "risk"))
      else
        var after := broker.Submit(request, now);
        var found := after.Find(request.key);
        match fate
        case BrokerRaised(tookEffect) =>
          System(store.MarkUnknown(request, "broker"), if tookEffect then after else broker)
        case Completed =>
          System(if found.Some? then store.MarkSubmitted(request, found.value) else store, after)
        case _ => this.(broker := after)
    }

    /** An event that raises, or that handles a record no longer pending, changes nothing. */
    function Step(event: Event): System {
      match event
      case Approve(request) =>
        var r := store.Approve(request);
        if r.Ok? then this.(store := r.value) else this
      case Handle(key, allowed, fate, now) =>
        if store.IsPending(key) && store.records[key].request.key == key then
          Pass(store.records[key].request, allowed, fate, now)
        else this
      case PriceSet(symbol, price) =>
        var r := broker.SetPrice(symbol, price);
        if r.Ok? then this.(broker := r.value) else this
      case Cancel(id) =>
        var r := broker.CancelOrder(id);
        if r.Ok? then this.(broker := r.value) else this
    }
  }

  /** The system after the first n events. */
  ghost function After(s: System, events: seq<Event>, n: nat): System
    requires n <= |events|
  {
    if n == 0 then s else After(s, events, n - 1).Step(events[n - 1])
  }

  /** The broker's order, as recorded at some earlier moment: only a cancellation may have intervened. */
  ghost predicate SnapshotOf(recorded: BrokerOrder, current: BrokerOrder) {
    current == recorded || (recorded.status == BrokerOrderStatus.Submitted && current == recorded.(status := Cancelled))
  }

  ghost predicate OrderApproved(s: System, key: IdempotencyKey) {
    && key in s.store.records && s.broker.Find(key).Some?
    && s.broker.Find(key).value.request == s.store.records[key].request
  }

  ghost predicate RecordBacked(s: System, key: IdempotencyKey)
    requires key in s.store.records
  {
    var record := s.store.records[key];
    record.status == RecordStatus.Submitted ==>
      && record.brokerOrder.Some? && s.broker.Find(key).Some?
      && SnapshotOf(record.brokerOrder.value, s.broker.Find(key).value)
  }

  /** Store and broker agree: every broker order was approved with exactly that request, and every
      submitted record names its broker order. */
  ghost predicate Linked(s: System) {
    && s.store.Filed() && s.broker.Indexed()
    && (forall key {:trigger OrderApproved(s, key)} :: key in s.broker.index ==> OrderApproved(s, key))
    && (forall key {:trigger RecordBacked(s, key)} :: key in s.store.records ==> RecordBacked(s, key))
  }

  lemma ApproveLinked(s: System, request: BrokerOrderRequest)
    requires Linked(s)
    ensures Linked(s.Step(Approve(request)))
  {
    var after := s.Step(Approve(request));
    assert after.store.Filed();
    forall key | key in after.broker.index
      ensures OrderApproved(after, key)
    {
      assert OrderApproved(s, key);
    }
    forall key | key in after.store.records
      ensures RecordBacked(after, key)
    {
      assert key in s.store.records ==> RecordBacked(s, key);
    }
  }

  /** Writing a record back, with or without its submission, keeps the two sides in step. */
  lemma PutLinked(s: System, key: IdempotencyKey, record: ExecutionRecord, broker: Broker)
    requires Linked(s) && key in s.store.records && record.request == s.store.records[key].request
    requires broker.Indexed() && (broker == s.broker || Extends(broker, s.broker, record.request))
    requires record.status == RecordStatus.Submitted ==>
      record.brokerOrder.Some? && record.brokerOrder == broker.Find(key)
    ensures Linked(System(s.store.Put(key, record), broker))
  {
    var after := System(s.store.Put(key, record), broker);
    forall k | k in broker.index
      ensures OrderApproved(after, k)
    {
      assert broker.KeyIndexed(k);
      assert k in s.broker.index ==> OrderApproved(s, k) && s.broker.KeyIndexed(k);
    }
    forall k | k in after.store.records
      ensures RecordBacked(after, k)
    {
      assert RecordBacked(s, k);
      assert k in s.broker.index ==> s.broker.KeyIndexed(k);
    }
  }

  lemma PassLinked(s: System, key: IdempotencyKey, allowed: bool, fate: Fate, now: Time)
    requires Linked(s) && s.store.IsPending(key)
    ensures Linked(s.Pass(s.store.records[key].request, allowed, fate, now))
  {
    var record := s.store.records[key];
    var after := s.Pass(record.request, allowed, fate, now);
    SubmitExtends(s.broker, record.request, now);
    SubmitIndexed(s.broker, record.request, now);
    assert s.store.Put(key, record) == s.store;
    PutLinked(s, key, after.store.records[key], after.broker);
  }

  lemma CancelLinked(s: System, id: nat)
    requires Linked(s) && s.broker.CancelOrder(id).Ok? && s.broker.CancelOrder(id).value.Indexed()
    ensures Linked(s.(broker := s.broker.CancelOrder(id).value))
  {
    var after := s.(broker := s.broker.CancelOrder(id).value);
    forall k | k in after.broker.index
      ensures OrderApproved(after, k)
    {
      assert OrderApproved(s, k) && s.broker.KeyIndexed(k);
    }
    forall k | k in after.store.records
      ensures RecordBacked(after, k)
    {
      assert RecordBacked(s, k);
      assert k in s.broker.index ==> s.broker.KeyIndexed(k);
    }
  }

  lemma PriceLinked(s: System, symbol: Symbol, price: Price)
    requires Linked(s) && s.broker.(prices := s.broker.prices[symbol := price]).Indexed()
    ensures Linked(s.(broker := s.broker.(prices := s.broker.prices[symbol := price])))
  {
    var after := s.(broker := s.broker.(prices := s.broker.prices[symbol := price]));
    forall k | k in after.broker.index
      ensures OrderApproved(after, k)
    {
      assert OrderApproved(s, k);
    }
    forall k | k in after.store.records
      ensures RecordBacked(after, k)
    {
      assert RecordBacked(s, k);
    }
  }

  lemma StepLinked(s: System, event: Event)
    requires Linked(s)
    ensures Linked(s.Step(event))
  {
    match event
    case Approve(request) =>
      ApproveLinked(s, request);
    case Handle(key, allowed, fate, now) =>
      if s.store.IsPending(key) {
        PassLinked(s, key, allowed, fate, now);
      }
    case PriceSet(symbol, price) =>
      if price > 0.0 {
        PriceIndexed(s.broker, symbol, price);
        PriceLinked(s, symbol, price);
      }
    case Cancel(id) =>
      if s.broker.CancelOrder(id).Ok? {
        CancelIndexed(s.broker, id);
        CancelLinked(s, id);
      }
  }

  lemma StepSound(s: System, opening: Broker, event: Event)
    requires Sound(s.broker, opening)
    ensures Sound(s.Step(event).broker, opening)
  {
    match event
    case Approve(request) =>
    case Handle(key, allowed, fate, now) =>
      if s.store.IsPending(key) {
        SubmitSound(s.broker, opening, s.store.records[key].request, now);
      }
    case PriceSet(symbol, price) =>
      if price > 0.0 {
        PriceIndexed(s.broker, symbol, price);
      }
    case Cancel(id) =>
      if s.broker.CancelOrder(id).Ok? {
        CancelSound(s.broker, opening, id);
      }
  }

  /** Where every run starts: nothing approved, a broker that has not traded. */
  ghost predicate Fresh(s: System) {
    s.store == Store([], map[]) && Opening(s.broker)
  }

  /** Safety of every run: the broker's books stay sound and agree with the store. */
  lemma {:induction false} RunSafe(s: System, events: seq<Event>, n: nat)
    requires Fresh(s) && n <= |events|
    ensures Sound(After(s, events, n).broker, s.broker) && Linked(After(s, events, n))
  {
    if n == 0 {
      OpeningSound(s.broker);
    } else {
      RunSafe(s, events, n - 1);
      StepSound(After(s, events, n - 1), s.broker, events[n - 1]);
      StepLinked(After(s, events, n - 1), events[n - 1]);
    }
  }

  /** At most once: over every run each key has at most one order and at most one fill, and balances
      are the opening balances plus the fills, never negative. */
  lemma AtMostOnce(s: System, events: seq<Event>, n: nat, symbol: Symbol)
    requires Fresh(s) && n <= |events|
    ensures var b := After(s, events, n).broker;
      && (forall x, y :: x in b.orders && y in b.orders && b.orders[x].request.key == b.orders[y].request.key ==>
        x == y)
      && (forall i, j :: 0 <= i < j < |b.fills| ==>
            b.fills[i].orderId in b.orders && b.fills[j].orderId in b.orders
            && b.orders[b.fills[i].orderId].request.key != b.orders[b.fills[j].orderId].request.key)
      && 0.0 <= b.cash == s.broker.cash + CashFlow(b.fills)
      && 0 <= b.Position(symbol) == s.broker.Position(symbol) + QuantityFlow(b.fills, symbol)
  {
    RunSafe(s, events, n);
    var b := After(s, events, n).broker;
    AtMostOncePerKey(b, s.broker);
    assert PositionBalanced(b.positions, b.fills, s.broker, symbol);
  }

  /** One step never touches a record that has left APPROVED, nor creates its order. */
  lemma StepKeepsSettled(s: System, event: Event, key: IdempotencyKey)
    requires s.broker.Indexed() && s.store.Filed() && key in s.store.records && s.store.records[key].status != Approved
    ensures key in s.Step(event).store.records && s.Step(event).store.records[key] == s.store.records[key]
    ensures key in s.Step(event).broker.index <==> key in s.broker.index
  {
    if event.Handle? && s.store.IsPending(event.key) {
      SubmitExtends(s.broker, s.store.records[event.key].request, event.now);
    }
  }

  lemma {:induction false} RunLinked(s: System, events: seq<Event>, n: nat)
    requires Linked(s) && n <= |events|
    ensures Linked(After(s, events, n))
  {
    if n > 0 {
      RunLinked(s, events, n - 1);
      StepLinked(After(s, events, n - 1), events[n - 1]);
    }
  }

  /** Never resubmitted: once a record has left APPROVED it keeps its content for ever, and whether
      the broker has an order for it never changes again. */
  lemma {:induction false} NeverResubmitted(s: System, events: seq<Event>, n: nat, key: IdempotencyKey)
    requires Linked(s) && n <= |events| && key in s.store.records && s.store.records[key].status != Approved
    ensures key in After(s, events, n).store.records && After(s, events, n).store.records[key] == s.store.records[key]
    ensures key in After(s, events, n).broker.index <==> key in s.broker.index
  {
    if n > 0 {
      NeverResubmitted(s, events, n - 1, key);
      RunLinked(s, events, n - 1);
      StepKeepsSettled(After(s, events, n - 1), events[n - 1], key);
    }
  }

  /** Two systems that differ only in the record of a key whose order the broker already has;
      the second has settled that record. */
  ghost predicate Twins(a: System, b: System, key: IdempotencyKey) {
    && key in a.store.records && key in b.store.records && key in a.broker.index
    && b == System(a.store.Put(key, b.store.records[key]), a.broker)
    && a.store.records[key].request == b.store.records[key].request && b.store.records[key].status != Approved
  }

  /** A pass rewrites one record and depends only on that record and the broker. */
  lemma PassLocal(a: System, b: System, key: IdempotencyKey, allowed: bool, fate: Fate, now: Time)
    requires a.broker.Indexed() && a.broker == b.broker && key in a.store.records && key in b.store.records
    requires a.store.records[key] == b.store.records[key] && a.store.records[key].request.key == key
    ensures var after := a.Pass(a.store.records[key].request, allowed, fate, now);
      var other := b.Pass(b.store.records[key].request, allowed, fate, now);
      && after.broker == other.broker && key in after.store.records && key in other.store.records
      && after.store.records[key] == other.store.records[key]
      && after.store == a.store.Put(key, after.store.records[key])
        && other.store == b.store.Put(key, after.store.records[key])
  {
    SubmitIndexed(a.broker, a.store.records[key].request, now);
    assert a.store.Put(key, a.store.records[key]) == a.store;
    assert b.store.Put(key, b.store.records[key]) == b.store;
  }

  lemma TwinsPut(a: System, b: System, key: IdempotencyKey, other: IdempotencyKey, record: ExecutionRecord,
      broker: Broker)
    requires Twins(a, b, key) && other != key && other in a.store.records && key in broker.index
    ensures Twins(System(a.store.Put(other, record), broker), System(b.store.Put(other, record), broker), key)
  {
    var twin := b.store.records[key];
    assert a.store.records[other := record][key := twin] == a.store.records[key := twin][other := record];
  }

  lemma TwinsPutOwn(a: System, b: System, key: IdempotencyKey, record: ExecutionRecord)
    requires Twins(a, b, key) && record.request == a.store.records[key].request
    ensures Twins(System(a.store.Put(key, record), a.broker), b, key)
  {
    var twin := b.store.records[key];
    assert a.store.records[key := record][key := twin] == a.store.records[key := twin];
  }

  lemma TwinsApprove(a: System, b: System, key: IdempotencyKey, request: BrokerOrderRequest)
    requires a.broker.Indexed() && Twins(a, b, key)
    ensures Twins(a.Step(Approve(request)), b.Step(Approve(request)), key)
  {
    if request.key !in a.store.records {
      var twin, record := b.store.records[key], ExecutionRecord(request, Approved, None, None);
      assert a.store.records[request.key := record][key := twin] == a.store.records[key := twin][request.key := record];
    }
  }

  /** A pass over the twin key changes only its record; a pass over another key acts alike on both. */
  lemma PassTwins(a: System, b: System, key: IdempotencyKey, event: Event)
    requires a.broker.Indexed() && a.store.Filed() && b.store.Filed() && Twins(a, b, key)
    requires event.Handle? && a.store.IsPending(event.key)
    ensures Twins(a.Step(event), b.Step(event), key)
  {
    var after := a.Step(event);
    SubmitExtends(a.broker, a.store.records[event.key].request, event.now);
    PassLocal(a, a, event.key, event.allowed, event.fate, event.now);
    if event.key == key {
      TwinsPutOwn(a, b, key, after.store.records[key]);
    } else {
      PassLocal(a, b, event.key, event.allowed, event.fate, event.now);
      TwinsPut(a, b, key, event.key, after.store.records[event.key], after.broker);
    }
  }

  lemma StepTwins(a: System, b: System, key: IdempotencyKey, event: Event)
    requires a.broker.Indexed() && a.store.Filed() && b.store.Filed() && Twins(a, b, key)
    ensures Twins(a.Step(event), b.Step(event), key)
  {
    if event.Handle? {
      if a.store.IsPending(event.key) {
        PassTwins(a, b, key, event);
      }
    } else if event.Approve? {
      TwinsApprove(a, b, key, event.request);
    }
  }

  lemma {:induction false} RunTwins(a: System, b: System, key: IdempotencyKey, events: seq<Event>, n: nat)
    requires Linked(a) && Linked(b) && Twins(a, b, key) && n <= |events|
    ensures Twins(After(a, events, n), After(b, events, n), key)
  {
    if n > 0 {
      RunTwins(a, b, key, events, n - 1);
      var left, right := After(a, events, n - 1), After(b, events, n - 1);
      assert left.broker.Indexed() && left.store.Filed() by { RunLinked(a, events, n - 1); }
      assert right.store.Filed() by { RunLinked(b, events, n - 1); }
      StepTwins(left, right, key, events[n - 1]);
    }
  }

  /** A crash between the broker call and the status write is invisible to the broker: whatever
      happens next, orders, fills, cash and positions evolve as if the agent had not crashed. */
  lemma CrashInvisible(s: System, key: IdempotencyKey, now: Time, events: seq<Event>, n: nat)
    requires Linked(s) && s.store.IsPending(key) && n <= |events|
    ensures var crashed, completed := s.Step(Handle(key, true, CrashedAfterSubmit, now)),
      s.Step(Handle(key, true, Completed, now));
      && After(crashed, events, n).broker == After(completed, events, n).broker
      && (forall k :: k in After(crashed, events, n).store.records && k != key ==>
            k in After(completed, events, n).store.records
            && After(crashed, events, n).store.records[k] == After(completed, events, n).store.records[k])
  {
    var crashed, completed := s.Step(Handle(key, true, CrashedAfterSubmit, now)),
      s.Step(Handle(key, true, Completed, now));
    StepLinked(s, Handle(key, true, CrashedAfterSubmit, now));
    StepLinked(s, Handle(key, true, Completed, now));
    SubmitExtends(s.broker, s.store.records[key].request, now);
    RunTwins(crashed, completed, key, events, n);
  }

  /** Restarting and retrying at once gives exactly the state without the crash. */
  lemma CrashThenRetry(s: System, key: IdempotencyKey, crashedAt: Time, retriedAt: Time)
    requires Linked(s) && s.store.IsPending(key)
    ensures var crashed := s.Step(Handle(key, true, CrashedAfterSubmit, crashedAt));
      crashed.Step(Handle(key, true, Completed, retriedAt)) == s.Step(Handle(key, true, Completed, crashedAt))
  {
    StepLinked(s, Handle(key, true, CrashedAfterSubmit, crashedAt));
    SubmitExtends(s.broker, s.store.records[key].request, crashedAt);
  }

  /** The broker took the order for a pending key, and the crash hid that from the store. */
  ghost predicate HiddenSubmission(s: System, events: seq<Event>, i: nat, key: IdempotencyKey)
    requires i < |events|
  {
    && events[i].Handle? && events[i].key == key && events[i].allowed && events[i].fate.CrashedAfterSubmit?
    && After(s, events, i).store.IsPending(key)
  }

  ghost predicate SubmissionHidden(s: System, events: seq<Event>, n: nat, key: IdempotencyKey)
    requires n <= |events|
  {
    exists i :: 0 <= i < n && HiddenSubmission(s, events, i, key)
  }

  /** What the store cannot see of one key: an order exists exactly when a submission was hidden. */
  ghost predicate HiddenOrNone(s: System, key: IdempotencyKey, hidden: bool) {
    if key !in s.store.records then !hidden && key !in s.broker.index
    else s.store.records[key].status in {Approved, Failed} ==> (key in s.broker.index <==> hidden)
  }

  lemma StepHides(s: System, event: Event, key: IdempotencyKey, hidden: bool)
    requires Linked(s) && HiddenOrNone(s, key, hidden)
    ensures HiddenOrNone(s.Step(event), key, hidden
      || (event.Handle? && event.key == key && event.allowed && event.fate.CrashedAfterSubmit?
        && s.store.IsPending(key)))
  {
    if event.Handle? && s.store.IsPending(event.key) {
      SubmitExtends(s.broker, s.store.records[event.key].request, event.now);
    }
  }

  lemma {:induction false} HidesThroughout(s: System, events: seq<Event>, n: nat, key: IdempotencyKey)
    requires Fresh(s) && n <= |events|
    ensures HiddenOrNone(After(s, events, n), key, SubmissionHidden(s, events, n, key))
  {
    if n > 0 {
      HidesThroughout(s, events, n - 1, key);
      RunSafe(s, events, n - 1);
      StepHides(After(s, events, n - 1), events[n - 1], key, SubmissionHidden(s, events, n - 1, key));
      assert SubmissionHidden(s, events, n, key)
        <==> SubmissionHidden(s, events, n - 1, key) || HiddenSubmission(s, events, n - 1, key);
    }
  }

  /** A record marked FAILED can conceal an order, even a filled one, exactly when an earlier pass
      crashed after the broker had taken it and a later pass was refused by risk. */
  lemma FailedConceals(s: System, events: seq<Event>, n: nat, key: IdempotencyKey)
    requires Fresh(s) && n <= |events|
    requires key in After(s, events, n).store.records && After(s, events, n).store.records[key].status == Failed
    ensures key in After(s, events, n).broker.index <==> SubmissionHidden(s, events, n, key)
  {
    HidesThroughout(s, events, n, key);
  }

  /** A run that ends with a FAILED record whose order is filled. */
  lemma FailedYetFilled(s: System, request: BrokerOrderRequest, price: Price, now: Time)
    requires Fresh(s) && request.side == Buy && Worth(price, request.quantity) <= s.broker.cash
    ensures var events := [PriceSet(request.symbol, price), Approve(request),
                           Handle(request.key, true, CrashedAfterSubmit, now),
                           Handle(request.key, false, Completed, now)];
      var last := After(s, events, 4);
         && request.key in last.store.records && last.store.records[request.key].status == Failed
         && last.broker.Find(request.key).Some? && last.broker.Find(request.key).value.status == Filled
  {
    var events := [PriceSet(request.symbol, price), Approve(request),
                   Handle(request.key, true, CrashedAfterSubmit, now), Handle(request.key, false, Completed, now)];
    var priced := s.Step(events[0]);
    assert After(s, events, 0) == s && After(s, events, 1) == priced;
    var approved := priced.Step(events[1]);
    assert After(s, events, 2) == approved;
    assert approved.store == Store([request.key], map[request.key := ExecutionRecord(request, Approved, None, None)]);
    var crashed := approved.Step(events[2]);
    assert After(s, events, 3) == crashed && crashed.broker == approved.broker.Submit(request, now);
    assert After(s, events, 4) == crashed.Step(events[3]);
  }

  type RiskGate = (BrokerOrderRequest, Broker) -> bool
  type Clock = nat -> Time

  ghost predicate Known(s: System, keys: seq<IdempotencyKey>) {
    forall key :: key in keys ==> key in s.store.records
  }

  /** The system after serving the first n of the keys found pending; risk sees the broker as it is then. */
  ghost function Served(s: System, keys: seq<IdempotencyKey>, risk: RiskGate, clock: Clock, n: nat): System
    requires n <= |keys| && Known(s, keys)
    decreases n, 0
  {
    if n == 0 then s
    else
      var before := Served(s, keys, risk, clock, n - 1);
      var event := Handle(keys[n - 1], Allowed(s, keys, risk, clock, n - 1), Completed, clock(n - 1));
      before.Step(event)
  }

  ghost predicate Allowed(s: System, keys: seq<IdempotencyKey>, risk: RiskGate, clock: Clock, i: nat)
    requires i < |keys| && Known(s, keys)
    decreases i, 1
  {
    risk(s.store.records[keys[i]].request, Served(s, keys, risk, clock, i).broker)
  }

  ghost function AllowedCount(s: System, keys: seq<IdempotencyKey>, risk: RiskGate, clock: Clock, n: nat): nat
    requires n <= |keys| && Known(s, keys)
  {
    if n == 0 then 0
    else AllowedCount(s, keys, risk, clock, n - 1) + if Allowed(s, keys, risk, clock, n - 1) then 1 else 0
  }

  lemma CompletedPass(s: System, key: IdempotencyKey, allowed: bool, now: Time)
    requires Linked(s) && s.store.IsPending(key)
    ensures var after := s.Step(Handle(key, allowed, Completed, now));
      && Linked(after) && key in after.store.records && after.store == s.store.Put(key, after.store.records[key])
      && after.store.records[key].status == if allowed then RecordStatus.Submitted else Failed
  {
    StepLinked(s, Handle(key, allowed, Completed, now));
    SubmitExtends(s.broker, s.store.records[key].request, now);
    PassLocal(s, s, key, allowed, Completed, now);
  }

  ghost predicate PendingAll(store: Store, keys: seq<IdempotencyKey>) {
    Unrepeated(keys) && forall key :: key in keys ==> store.IsPending(key)
  }

  /** Exactly the first n keys' records have been settled, each as `verdict` says. */
  ghost predicate SettledUpTo(before: Store, after: Store, keys: seq<IdempotencyKey>, verdict: seq<bool>)
    requires |verdict| <= |keys|
  {
    && after.keys == before.keys && after.records.Keys == before.records.Keys
    && (forall key :: key in before.records && key !in keys[..|verdict|] ==> after.records[key] == before.records[key])
    && (forall i :: 0 <= i < |verdict| ==>
          keys[i] in after.records && after.records[keys[i]].status == if verdict[i] then RecordStatus.Submitted
            else Failed)
  }

  lemma NextPending(before: Store, after: Store, keys: seq<IdempotencyKey>, verdict: seq<bool>)
    requires PendingAll(before, keys) && |verdict| < |keys| && SettledUpTo(before, after, keys, verdict)
    ensures after.IsPending(keys[|verdict|])
  {
    assert keys[|verdict|] in keys && keys[|verdict|] !in keys[..|verdict|];
  }

  lemma SettleNext(before: Store, after: Store, keys: seq<IdempotencyKey>, verdict: seq<bool>,
      record: ExecutionRecord, allowed: bool)
    requires PendingAll(before, keys) && |verdict| < |keys| && SettledUpTo(before, after, keys, verdict)
    requires record.status == if allowed then RecordStatus.Submitted else Failed
    ensures SettledUpTo(before, after.Put(keys[|verdict|], record), keys, verdict + [allowed])
  {
    var n := |verdict|;
    assert keys[n] in keys && keys[n] !in keys[..n];
    assert keys[..n + 1] == keys[..n] + [keys[n]];
  }

  ghost function Verdicts(s: System, keys: seq<IdempotencyKey>, risk: RiskGate, clock: Clock, n: nat): (v: seq<bool>)
    requires n <= |keys| && Known(s, keys)
    ensures |v| == n
  {
    if n == 0 then [] else Verdicts(s, keys, risk, clock, n - 1) + [Allowed(s, keys, risk, clock, n - 1)]
  }

  /** Serving marks each record SUBMITTED or FAILED as the risk gate said when its turn came, leaves
      none of them pending and every other record alone. */
  lemma {:induction false} ServedSettles(s: System, keys: seq<IdempotencyKey>, risk: RiskGate, clock: Clock, n: nat)
    requires Linked(s) && n <= |keys| && PendingAll(s.store, keys) && Known(s, keys)
    ensures Linked(Served(s, keys, risk, clock, n))
    ensures SettledUpTo(s.store, Served(s, keys, risk, clock, n).store, keys, Verdicts(s, keys, risk, clock, n))
  {
    if n > 0 {
      ServedSettles(s, keys, risk, clock, n - 1);
      var before, after := Served(s, keys, risk, clock, n - 1), Served(s, keys, risk, clock, n);
      var verdict, allowed := Verdicts(s, keys, risk, clock, n - 1), Allowed(s, keys, risk, clock, n - 1);
      NextPending(s.store, before.store, keys, verdict);
      CompletedPass(before, keys[n - 1], allowed, clock(n - 1));
      SettleNext(s.store, before.store, keys, verdict, after.store.records[keys[n - 1]], allowed);
    }
  }

  lemma PendingFound(s: System)
    requires Linked(s)
    ensures PendingAll(s.store, PendingKeys(s.store)) && Known(s, PendingKeys(s.store)) && s.store.Filed()
  {
    PendingComplete(s.store);
  }

  /** When its turn comes, a record found pending still is, with its request. */
  ghost predicate TurnReady(s: System, keys: seq<IdempotencyKey>, risk: RiskGate, clock: Clock, n: nat)
    requires n < |keys| && Known(s, keys)
  {
    var now := Served(s, keys, risk, clock, n);
    && Linked(now) && now.store.IsPending(keys[n])
    && now.store.records[keys[n]] == s.store.records[keys[n]]
    && s.store.records[keys[n]].request.key == keys[n]
  }

  lemma TurnsReady(s: System, keys: seq<IdempotencyKey>, risk: RiskGate, clock: Clock, n: nat)
    requires Linked(s) && n < |keys| && PendingAll(s.store, keys) && Known(s, keys)
    ensures TurnReady(s, keys, risk, clock, n)
  {
    ServedSettles(s, keys, risk, clock, n);
    assert keys[n] in keys && keys[n] !in keys[..n];
  }

  lemma {:induction false} AfterPrefix(s: System, events: seq<Event>, event: Event, n: nat)
    requires n <= |events|
    ensures After(s, events + [event], n) == After(s, events, n)
  {
    if n > 0 {
      AfterPrefix(s, events, event, n - 1);
    }
  }

  /** A run of the agent is a run of events, so everything proved of event runs holds of it. */
  lemma {:induction false} ServedIsRun(s: System, keys: seq<IdempotencyKey>, risk: RiskGate, clock: Clock, n: nat)
    returns (events: seq<Event>)
    requires n <= |keys| && Known(s, keys)
    ensures |events| == n && Served(s, keys, risk, clock, n) == After(s, events, n)
  {
    if n == 0 {
      events := [];
    } else {
      var earlier := ServedIsRun(s, keys, risk, clock, n - 1);
      var event := Handle(keys[n - 1], Allowed(s, keys, risk, clock, n - 1), Completed, clock(n - 1));
      events := earlier + [event];
      AfterPrefix(s, earlier, event, n - 1);
    }
  }

  datatype AgentRunResult = AgentRunResult(submitted: nat, rejected: nat, unknown: nat)

  datatype AgentError = KillSwitchActive

  class ExecutionAgent {
    const store: ExecutionOrderStore
    const broker: PaperBroker
    const risk: RiskGate
    var killSwitchActive: bool

    constructor (store: ExecutionOrderStore, broker: PaperBroker, risk: RiskGate)
      ensures this.store == store && this.broker == broker && this.risk == risk && !killSwitchActive
    {
      this.store, this.broker, this.risk, killSwitchActive := store, broker, risk, false;
    }

    ghost function State(): System
      reads store, broker
    {
      System(store.State(), broker.State())
    }

    /** Without crashes a run is exactly one completed pass over each record that was pending. */
    method RunOnce(clock: Clock) returns (r: Result<AgentRunResult, AgentError>)
      requires Linked(State())
      modifies store, broker
      ensures killSwitchActive ==> r == Err(KillSwitchActive) && State() == old(State())
      ensures !killSwitchActive ==>
        var before, keys := old(State()), PendingKeys(old(store.State()));
        && Known(before, keys) && State() == Served(before, keys, risk, clock, |keys|)
        && r.Ok? && r.value.submitted == AllowedCount(before, keys, risk, clock, |keys|)
        && r.value.submitted + r.value.rejected == |keys| && r.value.unknown == 0
    {
      if killSwitchActive {
        return Err(KillSwitchActive);
      }
      PendingFound(State());
      var pending := store.Pending();
      ghost var before, keys := State(), PendingKeys(store.State());
      forall i | 0 <= i < |keys|
        ensures TurnReady(before, keys, risk, clock, i)
      {
        TurnsReady(before, keys, risk, clock, i);
      }
      var submitted, rejected := ServeAll(before, keys, pending, clock);
      return Ok(AgentRunResult(submitted, rejected, 0));
    }

    /** Serves the records found pending in turn, and counts those allowed and those refused. */
    method ServeAll(ghost before: System, ghost keys: seq<IdempotencyKey>, pending: seq<ExecutionRecord>, clock: Clock)
      returns (submitted: nat, rejected: nat)
      requires Known(before, keys) && State() == before && |pending| == |keys|
      requires forall i :: 0 <= i < |keys| ==> pending[i] == before.store.records[keys[i]]
      requires forall i :: 0 <= i < |keys| ==> TurnReady(before, keys, risk, clock, i)
      modifies store, broker
      ensures State() == Served(before, keys, risk, clock, |keys|)
      ensures submitted == AllowedCount(before, keys, risk, clock, |keys|) && submitted + rejected == |keys|
    {
      submitted, rejected := 0, 0;
      for i := 0 to |pending|
        invariant State() == Served(before, keys, risk, clock, i)
        invariant submitted == AllowedCount(before, keys, risk, clock, i) && submitted + rejected == i
      {
        var allowed := ServeNext(before, keys, pending[i].request, clock, i);
        if allowed {
          submitted := submitted + 1;
        } else {
          rejected := rejected + 1;
        }
      }
    }

    /** Serves the record whose turn it is, and tells whether the risk gate allowed it. */
    method ServeNext(ghost before: System, ghost keys: seq<IdempotencyKey>, request: BrokerOrderRequest, clock: Clock,
        i: nat)
      returns (allowed: bool)
      requires Known(before, keys) && i < |keys| && TurnReady(before, keys, risk, clock, i)
      requires State() == Served(before, keys, risk, clock, i) && request == before.store.records[keys[i]].request
      modifies store, broker
      ensures State() == Served(before, keys, risk, clock, i + 1)
      ensures allowed == Allowed(before, keys, risk, clock, i)
      ensures AllowedCount(before, keys, risk, clock, i + 1)
        == AllowedCount(before, keys, risk, clock, i) + if allowed then 1 else 0
    {
      allowed := risk(request, broker.State());
      Serve(request, allowed, clock(i));
    }

    /** The loop body: a refused record fails, an allowed one goes to the broker. */
    method Serve(request: BrokerOrderRequest, allowed: bool, now: Time)
      requires Linked(State()) && State().store.IsPending(request.key)
      requires State().store.records[request.key].request == request
      modifies store, broker
      ensures State() == old(State()).Step(Handle(request.key, allowed, Completed, now))
    {
      if !allowed {
        var _ := store.MarkFailed(request, "risk");
        return;
      }
      var order := broker.SubmitOrder(request, now);
      var _ := store.MarkSubmitted(request, order);
    }
  }
}