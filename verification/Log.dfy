/** A log handle over the memory store. */
module Logs {
  import opened Prelude
  import opened CasProtocol
  import opened MemoryStores
  import opened Attempts
  import opened SortedSearch
  import opened LogModel

  class LogHandle<V> {
    const store: MemoryStore<Document<V>>
    const location: Location
    const schema: string

    constructor (store: MemoryStore<Document<V>>, location: Location, schema: string)
      ensures this.store == store && this.location == location && this.schema == schema
    {
      this.store := store;
      this.location := location;
      this.schema := schema;
    }

    method Append(value: V, id: Uuid, meanwhile: seq<Document<V>>) returns (r: AttemptReply<LogResult<V>>)
      requires store.Valid() && store.nextVersion + |meanwhile| < U64_MAX
      modifies store
      ensures store.Valid()
      ensures (store.State(), r)
           == Attempt(Log<V>(), old(store.State()), location, Call(schema, Op.Append(value)), id, meanwhile)
    {
      var found := store.Get(location);
      if found.None? { return Missing; }
      var version, document := found.value.version, found.value.bytes;
      var refused := ReadError(document, schema);
      if refused.Some? { return Replied(Returned(Failed(refused.value))); }
      ReadableIffSorted(document, schema);
      var search := BinarySearch(document.records, IdOf<V>, id);
      var index := if search.Ok? then search.value else search.error;
      document := document.(records := document.records[..index] + [Record(id, value)] + document.records[index..]);
      store.Interfere(location, meanwhile);
      var reply := store.Replace(location, version, document);
      match reply
      case Wrote(_) => r := Replied(Returned(Appended(id)));
      case Conflict(observed) => r := Replied(Conflicted(version, observed));
    }

    method Get(id: Uuid) returns (r: AttemptReply<LogResult<V>>)
      ensures (store.State(), r) == Attempt(Log<V>(), store.State(), location, Call(schema, GetRecord(id)), 0, [])
    {
      var found := store.Get(location);
      if found.None? { return Missing; }
      var document := found.value.bytes;
      var refused := ReadError(document, schema);
      if refused.Some? { return Replied(Returned(Failed(refused.value))); }
      ReadableIffSorted(document, schema);
      var search := BinarySearch(document.records, IdOf<V>, id);
      match search
      case Ok(index) => r := Replied(Returned(Got(Some(document.records[index]))));
      case Err(_) => r := Replied(Returned(Got(None)));
    }

    method RecordsAfter(id: Uuid) returns (r: AttemptReply<LogResult<V>>)
      ensures (store.State(), r) == Attempt(Log<V>(), store.State(), location, Call(schema, Op.RecordsAfter(id)), 0, [])
    {
      var found := store.Get(location);
      if found.None? { return Missing; }
      var document := found.value.bytes;
      var refused := ReadError(document, schema);
      if refused.Some? { return Replied(Returned(Failed(refused.value))); }
      ReadableIffSorted(document, schema);
      forall i, j | 0 <= i < j < |document.records| && document.records[j].id <= id
        ensures document.records[i].id <= id
      {
        assert IdOf(document.records[i]) < IdOf(document.records[j]);
      }
      var index := PartitionPoint(document.records, (record: Record<V>) => record.id <= id);
      RankAfterIs(document.records, id, index);
      r := Replied(Returned(Listed(document.records[index..])));
    }

    method Records() returns (r: AttemptReply<LogResult<V>>)
      ensures (store.State(), r) == Attempt(Log<V>(), store.State(), location, Call(schema, Op.Records), 0, [])
    {
      var found := store.Get(location);
      if found.None? { return Missing; }
      var refused := ReadError(found.value.bytes, schema);
      if refused.Some? { return Replied(Returned(Failed(refused.value))); }
      r := Replied(Returned(Listed(found.value.bytes.records)));
    }
  }
}
