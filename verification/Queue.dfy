/** A queue handle over the memory store. */
module Queues {
  import opened Prelude
  import opened StoreContract
  import opened CasProtocol
  import opened MemoryStores
  import opened Attempts
  import opened SortedSearch
  import opened QueueModel

  class QueueHandle<V> {
    const store: MemoryStore<Document<V>>
    const location: Location
    const schema: string

    constructor (store: MemoryStore<Document<V>>, location: Location, schema: string)
      ensures this.store == store && this.location == location && this.schema == schema
    {
      this.store := store;
      this.location := location;
      this.schema := schema;
    }

    method Write(
      expected: Version, document: Document<V>, result: QueueResult<V>) returns (r: AttemptReply<QueueResult<V>>)
      requires store.Valid() && store.nextVersion < U64_MAX
      modifies store
      ensures store.Valid() && (store.State(), r) == Submit(old(store.State()), location, expected, document, result)
    {
      var reply := store.Replace(location, expected, document);
      match reply
      case Wrote(_) => r := Replied(Returned(result));
      case Conflict(observed) => r := Replied(Conflicted(expected, observed));
    }

    method Publish(value: V, id: Uuid, meanwhile: seq<Document<V>>) returns (r: AttemptReply<QueueResult<V>>)
      requires store.Valid() && store.nextVersion + |meanwhile| < U64_MAX
      modifies store
      ensures store.Valid()
      ensures (store.State(), r)
           == Attempt(QueueModel.Queue<V>(), old(store.State()), location,
                      Call(schema, Op.Publish(value)), id, meanwhile)
    {
      var found := store.Get(location);
      if found.None? { return Missing; }
      var version, document := found.value.version, found.value.bytes;
      var refused := ReadError(document, schema);
      if refused.Some? { return Replied(Returned(Failed(refused.value))); }
      ReadableIffSorted(document, schema);
      forall i, j | 0 <= i < j < |document.messages| && document.messages[j].id < id
        ensures document.messages[i].id < id
      {
        assert IdOf(document.messages[i]) < IdOf(document.messages[j]);
      }
      var index := PartitionPoint(document.messages, (m: Message<V>) => m.id < id);
      RankIs(document.messages, IdOf<V>, id, index);
      var messages := document.messages[..index] + [Message(id, value, 0, None)] + document.messages[index..];
      store.Interfere(location, meanwhile);
      r := Write(version, document.(messages := messages), Published(id));
    }

    method Claim(now: U64, leaseMillis: nat, token: Uuid, meanwhile: seq<Document<V>>)
      returns (r: AttemptReply<QueueResult<V>>)
      requires store.Valid() && store.nextVersion + |meanwhile| < U64_MAX
      modifies store
      ensures store.Valid()
      ensures (store.State(), r)
           == Attempt(QueueModel.Queue<V>(), old(store.State()), location,
                      Call(schema, TryClaim(now, leaseMillis)), token, meanwhile)
    {
      if leaseMillis == 0 || now + leaseMillis > U64_MAX { return Replied(Returned(Failed(InvalidLeaseDuration))); }
      var expiresAt := now + leaseMillis;
      var found := store.Get(location);
      if found.None? { return Missing; }
      var version, document := found.value.version, found.value.bytes;
      var refused := ReadError(document, schema);
      if refused.Some? { return Replied(Returned(Failed(refused.value))); }
      var index := FirstAvailable(document.messages, now);
      if index.None? { return Replied(Returned(NoneAvailable)); }
      var message := document.messages[index.value];
      if message.attempts + 1 > U32_MAX { return Replied(Returned(Failed(AttemptOverflow))); }
      message := message.(attempts := message.attempts + 1, lease := Some(Lease(token, expiresAt)));
      ghost var snapshot := document;
      document := document.(messages := document.messages[index.value := message]);
      var claim := QueueModel.Claim(message.id, message.value, token, message.attempts, expiresAt);
      assert Apply(snapshot, Call(schema, TryClaim(now, leaseMillis)), token) == Put(document, Claimed(claim));
      store.Interfere(location, meanwhile);
      r := Write(version, document, Claimed(claim));
    }

    method Ack(now: U64, id: Uuid, token: Uuid, meanwhile: seq<Document<V>>) returns (r: AttemptReply<QueueResult<V>>)
      requires store.Valid() && store.nextVersion + |meanwhile| < U64_MAX
      modifies store
      ensures store.Valid()
      ensures (store.State(), r)
           == Attempt(QueueModel.Queue<V>(), old(store.State()), location,
                      Call(schema, Op.Ack(now, id, token)), 0, meanwhile)
    {
      var found := store.Get(location);
      if found.None? { return Missing; }
      var version, document := found.value.version, found.value.bytes;
      var refused := ReadError(document, schema);
      if refused.Some? { return Replied(Returned(Failed(refused.value))); }
      ReadableIffSorted(document, schema);
      var search := BinarySearch(document.messages, IdOf<V>, id);
      if search.Err? { return Replied(Returned(NotFound)); }
      var index := search.value;
      var lease := document.messages[index].lease;
      if lease.None? || lease.value.token != token { return Replied(Returned(LeaseMismatch)); }
      if lease.value.expiresAt <= now { return Replied(Returned(LeaseExpired)); }
      document := document.(messages := document.messages[..index] + document.messages[index + 1..]);
      store.Interfere(location, meanwhile);
      r := Write(version, document, Acknowledged);
    }

    method Length() returns (r: AttemptReply<QueueResult<V>>)
      ensures (store.State(), r) == Attempt(QueueModel.Queue<V>(), store.State(), location, Call(schema, Len), 0, [])
    {
      var found := store.Get(location);
      if found.None? { return Missing; }
      var refused := ReadError(found.value.bytes, schema);
      if refused.Some? { return Replied(Returned(Failed(refused.value))); }
      r := Replied(Returned(QueueModel.Length(|found.value.bytes.messages|)));
    }
  }
}
