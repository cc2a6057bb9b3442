/** The execution order store: one record per idempotency key, in order of approval. */
module ExecutionStore {
  import opened Wrappers
  import opened PaperBroker
  import opened Sequences

  datatype RecordStatus = Approved | Submitted | Failed | Unknown

  datatype ExecutionRecord = ExecutionRecord(
    request: BrokerOrderRequest, status: RecordStatus, brokerOrder: Option<BrokerOrder>, error: Option<string>)

  datatype StoreError = KeyConflict | UnknownKey

  /** A dictionary that remembers insertion order: replacing a record keeps its place. */
  datatype Store = Store(keys: seq<IdempotencyKey>, records: map<IdempotencyKey, ExecutionRecord>) {
    /** Keys are listed once each, and a record is filed under its own key. */
    ghost predicate Filed() {
      && (forall key :: key in keys <==> key in records)
      && Unrepeated(keys)
      && (forall key :: key in records ==> records[key].request.key == key)
    }

    predicate IsPending(key: IdempotencyKey) {
      key in records && records[key].status == Approved
    }

    function Approve(request: BrokerOrderRequest): Result<Store, StoreError> {
      if request.key in records then
        if records[request.key].request != request then Err(KeyConflict) else Ok(this)
      else
        Ok(Store(keys + [request.key], records[request.key := ExecutionRecord(request, Approved, None, None)]))
    }

    function Put(key: IdempotencyKey, record: ExecutionRecord): Store {
      this.(records := records[key := record])
    }

    function MarkSubmitted(request: BrokerOrderRequest, order: BrokerOrder): Store
      requires request.key in records
    {
      Put(request.key, records[request.key].(status := RecordStatus.Submitted, brokerOrder := Some(order)))
    }

    function MarkFailed(request: BrokerOrderRequest, error: string): Store
      requires request.key in records
    {
      Put(request.key, records[request.key].(status := Failed, error := Some(error)))
    }

    function MarkUnknown(request: BrokerOrderRequest, error: string): Store
      requires request.key in records
    {
      Put(request.key, records[request.key].(status := RecordStatus.Unknown, error := Some(error)))
    }
  }

  /** The keys of pending records among the first n keys, oldest first. */
  ghost function PendingUpTo(store: Store, n: nat): seq<IdempotencyKey>
    requires n <= |store.keys|
  {
    if n == 0 then []
    else PendingUpTo(store, n - 1) + if store.IsPending(store.keys[n - 1]) then [store.keys[n - 1]] else []
  }

  ghost function PendingKeys(store: Store): seq<IdempotencyKey> {
    PendingUpTo(store, |store.keys|)
  }

  lemma {:induction false} PendingUpToComplete(store: Store, n: nat)
    requires store.Filed() && n <= |store.keys|
    ensures forall key :: key in PendingUpTo(store, n) <==> store.IsPending(key) && key in store.keys[..n]
    ensures Unrepeated(PendingUpTo(store, n))
  {
    if n > 0 {
      PendingUpToComplete(store, n - 1);
      assert store.keys[..n] == store.keys[..n - 1] + [store.keys[n - 1]];
    }
  }

  /** The listing holds every pending key once. */
  lemma PendingComplete(store: Store)
    requires store.Filed()
    ensures forall key :: key in PendingKeys(store) <==> store.IsPending(key)
    ensures Unrepeated(PendingKeys(store))
  {
    PendingUpToComplete(store, |store.keys|);
    assert store.keys[..|store.keys|] == store.keys;
  }

  class ExecutionOrderStore {
    var keys: seq<IdempotencyKey>
    var records: map<IdempotencyKey, ExecutionRecord>

    function State(): Store
      reads this
    {
      Store(keys, records)
    }

    constructor ()
      ensures State() == Store([], map[])
    {
      keys, records := [], map[];
    }

    method Approve(request: BrokerOrderRequest) returns (r: Result<ExecutionRecord, StoreError>)
      modifies this
      ensures r.Ok? ==> old(State()).Approve(request) == Ok(State())
      ensures r.Ok? ==> request.key in records && r.value == records[request.key] && r.value.request == request
      ensures r.Err? ==> State() == old(State()) && old(State()).Approve(request) == Err(r.error)
    {
      if request.key in records {
        if records[request.key].request != request {
          return Err(KeyConflict);
        }
        return Ok(records[request.key]);
      }
      var record := ExecutionRecord(request, Approved, None, None);
      keys := keys + [request.key];
      records := records[request.key := record];
      return Ok(record);
    }

    method Pending() returns (pending: seq<ExecutionRecord>)
      requires State().Filed()
      ensures |pending| == |PendingKeys(State())|
      ensures forall i :: 0 <= i < |pending| ==>
        PendingKeys(State())[i] in records && pending[i] == records[PendingKeys(State())[i]]
    {
      pending := [];
      for i := 0 to |keys|
        invariant |pending| == |PendingUpTo(State(), i)|
        invariant forall j :: 0 <= j < |pending| ==>
          PendingUpTo(State(), i)[j] in records && pending[j] == records[PendingUpTo(State(), i)[j]]
      {
        assert keys[i] in keys;
        if records[keys[i]].status == Approved {
          pending := pending + [records[keys[i]]];
        }
      }
    }

    method MarkSubmitted(request: BrokerOrderRequest, order: BrokerOrder)
        returns (r: Result<ExecutionRecord, StoreError>)
      modifies this
      ensures r.Ok? <==> request.key in old(records)
      ensures r.Ok? ==> request.key in records && r.value == records[request.key]
      ensures State() == if request.key in old(records) then old(State()).MarkSubmitted(request, order)
        else old(State())
    {
      if request.key !in records {
        return Err(UnknownKey);
      }
      var record := records[request.key].(status := RecordStatus.Submitted, brokerOrder := Some(order));
      records := records[request.key := record];
      return Ok(record);
    }

    method MarkFailed(request: BrokerOrderRequest, error: string) returns (r: Result<ExecutionRecord, StoreError>)
      modifies this
      ensures r.Ok? <==> request.key in old(records)
      ensures r.Ok? ==> request.key in records && r.value == records[request.key]
      ensures State() == if request.key in old(records) then old(State()).MarkFailed(request, error) else old(State())
    {
      if request.key !in records {
        return Err(UnknownKey);
      }
      var record := records[request.key].(status := Failed, error := Some(error));
      records := records[request.key := record];
      return Ok(record);
    }

    method MarkUnknown(request: BrokerOrderRequest, error: string) returns (r: Result<ExecutionRecord, StoreError>)
      modifies this
      ensures r.Ok? <==> request.key in old(records)
      ensures r.Ok? ==> request.key in records && r.value == records[request.key]
      ensures State() == if request.key in old(records) then old(State()).MarkUnknown(request, error) else old(State())
    {
      if request.key !in records {
        return Err(UnknownKey);
      }
      var record := records[request.key].(status := RecordStatus.Unknown, error := Some(error));
      records := records[request.key := record];
      return Ok(record);
    }
  }
}
