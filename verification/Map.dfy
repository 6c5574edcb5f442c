/** A map handle over the memory store, and the bounded retry loop documented for callers. */
module Maps {
  import opened Prelude
  import opened StoreContract
  import opened CasProtocol
  import opened MemoryStores
  import opened Attempts
  import opened Metadata
  import opened MapModel

  /** The writes of other clients around one attempt: before its read, and between its read and
      its replace. */
  datatype Gap<+D> = Gap(before: seq<D>, meanwhile: seq<D>)

  function Total<D>(gaps: seq<Gap<D>>): nat {
    if gaps == [] then 0 else |gaps[0].before| + |gaps[0].meanwhile| + Total(gaps[1..])
  }

  lemma {:induction false} TotalSplits<D>(gaps: seq<Gap<D>>, n: nat)
    requires n < |gaps|
    ensures Total(gaps[n..]) == |gaps[n].before| + |gaps[n].meanwhile| + Total(gaps[n + 1..])
    ensures Total(gaps[n..]) <= Total(gaps)
  {
    assert gaps[n..][1..] == gaps[n + 1..];
    if n > 0 {
      assert gaps[1..][n - 1..] == gaps[n..];
      TotalSplits(gaps[1..], n - 1);
    }
  }

  /** One insert surrounded by the writes of `gap`. */
  function Try<V>(m: Memory<Document<V>>, location: Location, call: Call<V>, gap: Gap<Document<V>>)
    : (Memory<Document<V>>, AttemptReply<MapResult<V>>)
  {
    Attempt(Map<V>(), OthersWrite(m, location, gap.before), location, call, 0, gap.meanwhile)
  }

  /** The whole loop, over any kind of attempt: stop at the first one that does not end in a conflict;
      after the last one, report the last conflict. */
  function Loop<S, G, R>(attempt: (S, G) -> (S, R), conflict: R -> bool, s: S, gaps: seq<G>, last: R): (S, R)
    decreases |gaps|
  {
    if gaps == [] then (s, last)
    else
      var (after, reply) := attempt(s, gaps[0]);
      if conflict(reply) then Loop(attempt, conflict, after, gaps[1..], reply) else (after, reply)
  }

  function Trier<V>(location: Location, call: Call<V>)
    : (Memory<Document<V>>, Gap<Document<V>>) -> (Memory<Document<V>>, AttemptReply<MapResult<V>>)
  {
    (m: Memory<Document<V>>, gap: Gap<Document<V>>) => Try(m, location, call, gap)
  }

  function Retry<V>(
    m: Memory<Document<V>>, location: Location,
    call: Call<V>, gaps: seq<Gap<Document<V>>>, last: AttemptReply<MapResult<V>>)
    : (Memory<Document<V>>, AttemptReply<MapResult<V>>)
  {
    Loop(Trier(location, call), IsConflict<MapResult<V>>, m, gaps, last)
  }

  predicate IsConflict<R>(reply: AttemptReply<R>) {
    reply.Replied? && reply.reply.Conflicted?
  }

  class MapHandle<V> {
    const store: MemoryStore<Document<V>>
    const location: Location
    const schema: string

    constructor (store: MemoryStore<Document<V>>, location: Location, schema: string)
      ensures this.store == store && this.location == location && this.schema == schema
    {
      this.store := store;
      this.location := location;
      this.schema := schema;
    }

    method Write(expected: Version, document: Document<V>, result: MapResult<V>) returns (r: AttemptReply<MapResult<V>>)
      requires store.Valid() && store.nextVersion < U64_MAX
      modifies store
      ensures store.Valid() && (store.State(), r) == Submit(old(store.State()), location, expected, document, result)
      ensures store.nextVersion <= old(store.nextVersion) + 1
    {
      var reply := store.Replace(location, expected, document);
      match reply
      case Wrote(_) => r := Replied(Returned(result));
      case Conflict(observed) => r := Replied(Conflicted(expected, observed));
    }

    method Insert(key: string, value: V, meanwhile: seq<Document<V>>) returns (r: AttemptReply<MapResult<V>>)
      requires store.Valid() && store.nextVersion + |meanwhile| < U64_MAX
      modifies store
      ensures store.Valid()
      ensures (store.State(), r)
           == Attempt(Map<V>(), old(store.State()), location, Call(schema, Op.Insert(key, value)), 0, meanwhile)
    {
      var found := store.Get(location);
      if found.None? { return Missing; }
      var version, document := found.value.version, found.value.bytes;
      var refused := Validate(document.header, KIND, schema);
      if refused.Some? { return Replied(Returned(Failed(refused.value))); }
      document := document.(entries := document.entries[key := value]);
      store.Interfere(location, meanwhile);
      r := Write(version, document, Stored);
    }

    method InsertIfAbsent(key: string, value: V, meanwhile: seq<Document<V>>) returns (r: AttemptReply<MapResult<V>>)
      requires store.Valid() && store.nextVersion + |meanwhile| < U64_MAX
      modifies store
      ensures store.Valid()
      ensures (store.State(), r)
           == Attempt(Map<V>(), old(store.State()), location, Call(schema, Op.InsertIfAbsent(key, value)), 0, meanwhile)
    {
      var found := store.Get(location);
      if found.None? { return Missing; }
      var version, document := found.value.version, found.value.bytes;
      var refused := Validate(document.header, KIND, schema);
      if refused.Some? { return Replied(Returned(Failed(refused.value))); }
      if key in document.entries { return Replied(Returned(Occupied(document.entries[key]))); }
      document := document.(entries := document.entries[key := value]);
      store.Interfere(location, meanwhile);
      r := Write(version, document, Inserted);
    }

    method Remove(key: string, meanwhile: seq<Document<V>>) returns (r: AttemptReply<MapResult<V>>)
      requires store.Valid() && store.nextVersion + |meanwhile| < U64_MAX
      modifies store
      ensures store.Valid()
      ensures (store.State(), r)
           == Attempt(Map<V>(), old(store.State()), location, Call(schema, Op.Remove(key)), 0, meanwhile)
    {
      var found := store.Get(location);
      if found.None? { return Missing; }
      var version, document := found.value.version, found.value.bytes;
      var refused := Validate(document.header, KIND, schema);
      if refused.Some? { return Replied(Returned(Failed(refused.value))); }
      if key !in document.entries { return Replied(Returned(Removed(None))); }
      var removed := document.entries[key];
      document := document.(entries := document.entries - {key});
      store.Interfere(location, meanwhile);
      r := Write(version, document, Removed(Some(removed)));
    }

    /** Inserts with at most |gaps| attempts. */
    method InsertWithLimit(key: string, value: V, gaps: seq<Gap<Document<V>>>) returns (r: AttemptReply<MapResult<V>>)
      requires |gaps| > 0
      requires store.Valid() && store.nextVersion + Total(gaps) + |gaps| < U64_MAX
      modifies store
      ensures store.Valid()
      ensures (store.State(), r)
           == Retry(old(store.State()), location, Call(schema, Op.Insert(key, value)), gaps, Missing)
    {
      ghost var start, call := store.State(), Call(schema, Op.Insert(key, value));
      var lastConflict: AttemptReply<MapResult<V>> := Missing;
      assert gaps[0..] == gaps;
      for i := 0 to |gaps|
        invariant store.Valid()
        invariant store.nextVersion + Total(gaps[i..]) + |gaps| - i < U64_MAX
        invariant Retry(start, location, call, gaps, Missing)
               == Retry(store.State(), location, call, gaps[i..], lastConflict)
        invariant i > 0 ==> IsConflict(lastConflict)
      {
        TotalSplits(gaps, i);
        assert gaps[i..][1..] == gaps[i + 1..];
        store.Interfere(location, gaps[i].before);
        AttemptStamps(store.State(), location, call, gaps[i].meanwhile);
        var reply := Insert(key, value, gaps[i].meanwhile);
        if IsConflict(reply) {
          lastConflict := reply;
        } else {
          return reply;
        }
      }
      r := lastConflict;
    }
  }

  lemma {:induction false} AttemptStamps<V>(
    m: Memory<Document<V>>, location: Location, call: Call<V>, writes: seq<Document<V>>)
    requires Stamped(m)
    ensures Attempt(Map<V>(), m, location, call, 0, writes).0.nextVersion <= m.nextVersion + |writes| + 1
  {
    if location in m.objects { OthersWriteLast(m, location, writes); }
  }

  // --- What the loop achieves ---

  ghost predicate Readable<V>(doc: Document<V>, schema: string) {
    doc.header == Header(FORMAT_VERSION, KIND, schema)
  }

  /** Only clients of the same map write to it. */
  ghost predicate SameMap<V>(gaps: seq<Gap<Document<V>>>, schema: string) {
    forall gap <- gaps :: SameMapIn(gap, schema)
  }

  ghost predicate SameMapIn<V>(gap: Gap<Document<V>>, schema: string) {
    && (forall i :: 0 <= i < |gap.before| ==> Readable(gap.before[i], schema))
    && forall i :: 0 <= i < |gap.meanwhile| ==> Readable(gap.meanwhile[i], schema)
  }

  /** The document an attempt in `gap` reads, if the map held `doc` before. */
  ghost function ReadIn<D>(doc: D, gap: Gap<D>): D {
    if gap.before == [] then doc else gap.before[|gap.before| - 1]
  }

  /** The document in place before attempt `n`, if all attempts before it were overtaken. */
  ghost function LeftBefore<D>(doc: D, gaps: seq<Gap<D>>, n: nat): D
    requires n <= |gaps|
  {
    if n == 0 || gaps[n - 1].meanwhile == [] then doc else gaps[n - 1].meanwhile[|gaps[n - 1].meanwhile| - 1]
  }

  ghost function InsertedInto<V>(doc: Document<V>, key: string, value: V): Document<V> {
    doc.(entries := doc.entries[key := value])
  }

  lemma {:induction false} OneTry<V>(
    m: Memory<Document<V>>, location: Location, schema: string, key: string, value: V, gap: Gap<Document<V>>)
    requires Stamped(m) && location in m.objects && Readable(m.objects[location].bytes, schema)
    requires SameMapIn(gap, schema)
    ensures var (after, reply) := Try(m, location, Call(schema, Op.Insert(key, value)), gap);
            && Stamped(after) && location in after.objects && Readable(after.objects[location].bytes, schema)
            && if gap.meanwhile == [] then
                 && reply == Replied(Returned(Stored))
                 && after.nextVersion == m.nextVersion + |gap.before| + 1
                 && after.objects[location].bytes == InsertedInto(ReadIn(m.objects[location].bytes, gap), key, value)
               else
                 && IsConflict(reply)
                 && after.nextVersion == m.nextVersion + |gap.before| + |gap.meanwhile|
                 && after.objects[location].bytes == gap.meanwhile[|gap.meanwhile| - 1]
  {
    OthersWriteLast(m, location, gap.before);
    var read := OthersWrite(m, location, gap.before);
    assert Readable(read.objects[location].bytes, schema);
    WritesUnlessOvertaken(Map<V>(), read, location, Call(schema, Op.Insert(key, value)), 0, gap.meanwhile);
  }

  /** The loop passes through one state per conflict and stops as described. */
  ghost predicate Trace<S, G, R>(attempt: (S, G) -> (S, R), conflict: R -> bool, gaps: seq<G>, states: seq<S>) {
    && 0 < |states| <= |gaps| + 1
    && forall i :: 0 <= i < |states| - 1 ==>
                     conflict(attempt(states[i], gaps[i]).1) && states[i + 1] == attempt(states[i], gaps[i]).0
  }

  ghost function LoopEnd<S, G, R>(attempt: (S, G) -> (S, R), gaps: seq<G>, last: R, states: seq<S>): (S, R)
    requires 0 < |states| <= |gaps| + 1
  {
    var won := |states| - 1;
    if won < |gaps| then attempt(states[won], gaps[won])
    else (states[won], if won == 0 then last else attempt(states[won - 1], gaps[won - 1]).1)
  }

  lemma {:induction false} LoopTrace<S, G, R>(
    attempt: (S, G) -> (S, R), conflict: R -> bool, s: S, gaps: seq<G>, last: R)
    returns (states: seq<S>)
    ensures Trace(attempt, conflict, gaps, states) && states[0] == s
    ensures Loop(attempt, conflict, s, gaps, last) == LoopEnd(attempt, gaps, last, states)
    ensures |states| - 1 < |gaps| ==> !conflict(attempt(states[|states| - 1], gaps[|states| - 1]).1)
    decreases |gaps|
  {
    if gaps == [] || !conflict(attempt(s, gaps[0]).1) {
      states := [s];
    } else {
      var (after, reply) := attempt(s, gaps[0]);
      var rest := LoopTrace(attempt, conflict, after, gaps[1..], reply);
      states := [s] + rest;
      forall i | 0 <= i < |states| - 1
        ensures conflict(attempt(states[i], gaps[i]).1) && states[i + 1] == attempt(states[i], gaps[i]).0
      {
        if i > 0 { assert gaps[1..][i - 1] == gaps[i] && rest[i - 1 + 1] == states[i + 1]; }
      }
    }
  }

  lemma {:induction false} TotalGrows<D>(gaps: seq<Gap<D>>, n: nat)
    requires n < |gaps|
    ensures Total(gaps[..n + 1]) == Total(gaps[..n]) + |gaps[n].before| + |gaps[n].meanwhile|
    decreases n
  {
    if n > 0 {
      TotalGrows(gaps[1..], n - 1);
      assert gaps[..n + 1][1..] == gaps[1..][..n] && gaps[..n][1..] == gaps[1..][..n - 1];
    }
  }

  /** After i conflicts only the others have written, at least once each time. */
  ghost predicate OthersOnly<V>(
    m: Memory<Document<V>>, s: Memory<Document<V>>, location: Location, schema: string,
    gaps: seq<Gap<Document<V>>>, i: nat)
    requires i <= |gaps|
  {
    && Stamped(s) && location in s.objects && Readable(s.objects[location].bytes, schema)
    && s.nextVersion == m.nextVersion + Total(gaps[..i]) && Total(gaps[..i]) >= i
    && (i > 0 ==> gaps[i - 1].meanwhile != []
                  && s.objects[location].bytes == gaps[i - 1].meanwhile[|gaps[i - 1].meanwhile| - 1])
  }

  lemma {:induction false} ConflictsLeaveOthersOnly<V>(
    m: Memory<Document<V>>, location: Location, schema: string, key: string, value: V, gaps: seq<Gap<Document<V>>>,
    states: seq<Memory<Document<V>>>, i: nat)
    requires Stamped(m) && location in m.objects && Readable(m.objects[location].bytes, schema) && SameMap(gaps, schema)
    requires Trace(Trier(location, Call(schema, Op.Insert(key, value))), IsConflict<MapResult<V>>, gaps, states)
    requires states[0] == m && i < |states|
    ensures OthersOnly(m, states[i], location, schema, gaps, i)
  {
    if i == 0 {
      assert gaps[..0] == [];
    } else {
      ConflictsLeaveOthersOnly(m, location, schema, key, value, gaps, states, i - 1);
      OneMoreConflict(m, states[i - 1], location, schema, key, value, gaps, i - 1);
      assert states[i - 1 + 1] == states[i];
    }
  }

  lemma {:induction false} OneMoreConflict<V>(
    m: Memory<Document<V>>, s: Memory<Document<V>>, location: Location, schema: string, key: string, value: V,
    gaps: seq<Gap<Document<V>>>, i: nat)
    requires i < |gaps| && SameMap(gaps, schema) && OthersOnly(m, s, location, schema, gaps, i)
    requires IsConflict(Try(s, location, Call(schema, Op.Insert(key, value)), gaps[i]).1)
    ensures OthersOnly(m, Try(s, location, Call(schema, Op.Insert(key, value)), gaps[i]).0, location, schema, gaps,
                       i + 1)
  {
    assert gaps[i] in gaps;
    OneTry(s, location, schema, key, value, gaps[i]);
    TotalGrows(gaps, i);
  }

  /** `insert_with_limit` succeeds exactly when some attempt is not overtaken, and then, of all versions
      stamped, exactly one is its own: it inserted once, into the document that attempt
      read. Otherwise it reports a conflict and inserted nothing, and others committed at least once
      per attempt. */
  lemma {:induction false} RetryInsertsOnceOrNever<V>(
    m: Memory<Document<V>>, location: Location, schema: string, key: string, value: V,
    gaps: seq<Gap<Document<V>>>, last: AttemptReply<MapResult<V>>)
    returns (won: nat)
    requires Stamped(m) && location in m.objects && Readable(m.objects[location].bytes, schema)
    requires gaps != [] && SameMap(gaps, schema)
    ensures won <= |gaps| && (forall i :: 0 <= i < won ==> gaps[i].meanwhile != [])
    ensures won < |gaps| ==> gaps[won].meanwhile == []
    ensures var (after, reply) := Retry(m, location, Call(schema, Op.Insert(key, value)), gaps, last);
            && location in after.objects
            && (won < |gaps| ==>
                  && reply == Replied(Returned(Stored))
                  && after.nextVersion == m.nextVersion + Total(gaps[..won]) + |gaps[won].before| + 1
                  && after.objects[location].bytes
                     == InsertedInto(ReadIn(LeftBefore(m.objects[location].bytes, gaps, won), gaps[won]), key, value))
            && (won == |gaps| ==>
                  && IsConflict(reply)
                  && after.nextVersion == m.nextVersion + Total(gaps)
                  && Total(gaps) >= |gaps|
                  && after.objects[location].bytes == gaps[won - 1].meanwhile[|gaps[won - 1].meanwhile| - 1])
  {
    var call := Call(schema, Op.Insert(key, value));
    var states := LoopTrace(Trier(location, call), IsConflict<MapResult<V>>, m, gaps, last);
    won := |states| - 1;
    AllConflicted(m, location, schema, key, value, gaps, states);
    ConflictsLeaveOthersOnly(m, location, schema, key, value, gaps, states, won);
    if won < |gaps| {
      assert gaps[won] in gaps;
      OneTry(states[won], location, schema, key, value, gaps[won]);
    } else {
      assert gaps[..won] == gaps;
      assert IsConflict(Trier(location, call)(states[won - 1], gaps[won - 1]).1);
    }
  }

  /** The loop retries conflicts only: without an object, or on a document that does not fit the handle, it stops at
      its first attempt with the reason, having written nothing. */
  lemma {:induction false} RetryStopsOnOtherErrors<V>(
    m: Memory<Document<V>>, location: Location, schema: string, key: string, value: V,
    gaps: seq<Gap<Document<V>>>, last: AttemptReply<MapResult<V>>, reason: Incompatible)
    requires Stamped(m) && gaps != []
    ensures var (after, reply) := Retry(m, location, Call(schema, Op.Insert(key, value)), gaps, last);
            && (location !in m.objects ==> after == m && reply == Missing)
            && (&& location in m.objects
                && FirstDifference(reason, ReadIn(m.objects[location].bytes, gaps[0]).header,
                                   Header(FORMAT_VERSION, KIND, schema)) ==>
                  after == OthersWrite(m, location, gaps[0].before) && reply == Replied(Returned(Failed(reason))))
  {
    var call := Call(schema, Op.Insert(key, value));
    if location in m.objects {
      OthersWriteLast(m, location, gaps[0].before);
      UnreadableIsRefused(ReadIn(m.objects[location].bytes, gaps[0]), call, 0);
    }
  }

  lemma {:induction false} AllConflicted<V>(
    m: Memory<Document<V>>, location: Location, schema: string, key: string, value: V, gaps: seq<Gap<Document<V>>>,
    states: seq<Memory<Document<V>>>)
    requires Stamped(m) && location in m.objects && Readable(m.objects[location].bytes, schema) && SameMap(gaps, schema)
    requires Trace(Trier(location, Call(schema, Op.Insert(key, value))), IsConflict<MapResult<V>>, gaps, states)
    requires states[0] == m
    ensures forall i :: 0 <= i < |states| - 1 ==> gaps[i].meanwhile != []
  {
    forall i | 0 <= i < |states| - 1 ensures gaps[i].meanwhile != [] {
      ConflictsLeaveOthersOnly(m, location, schema, key, value, gaps, states, i + 1);
    }
  }
}
