/** One map document, its operations, and what every history of map calls looks like. */
module MapModel {
  import opened Prelude
  import opened CasProtocol
  import opened Linearizability
  import opened Metadata

  const KIND := "map"

  datatype Document<+V> = Document(header: Header, entries: map<string, V>)

  datatype Op<+V> =
    | Insert(key: string, value: V)
    | InsertIfAbsent(key: string, value: V)
    | Remove(key: string)
    | GetValue(key: string)
    | Entries

  datatype Call<+V> = Call(schema: string, op: Op<V>)

  datatype MapResult<+V> =
    | Stored
    | Inserted
    | Occupied(current: V)
    | Removed(removed: Option<V>)
    | Got(found: Option<V>)
    | Listed(entries: map<string, V>)
    | Failed(reason: Incompatible)

  function Lookup<V>(entries: map<string, V>, key: string): Option<V> {
    if key in entries then Some(entries[key]) else None
  }

  function Apply<V>(doc: Document<V>, call: Call<V>, draw: Uuid): Outcome<Document<V>, MapResult<V>> {
    match Validate(doc.header, KIND, call.schema)
    case Some(reason) => Keep(Failed(reason))
    case None =>
      match call.op
      case Insert(key, value) => Put(doc.(entries := doc.entries[key := value]), Stored)
      case InsertIfAbsent(key, value) =>
        if key in doc.entries then Keep(Occupied(doc.entries[key]))
        else Put(doc.(entries := doc.entries[key := value]), Inserted)
      case Remove(key) =>
        if key in doc.entries then Put(doc.(entries := doc.entries - {key}), Removed(Some(doc.entries[key])))
        else Keep(Removed(None))
      case GetValue(key) => Keep(Got(Lookup(doc.entries, key)))
      case Entries => Keep(Listed(doc.entries))
  }

  function Map<V>(): Structure<Document<V>, Call<V>, MapResult<V>> {
    Structure((call: Call<V>) => None, Apply<V>)
  }

  function Empty<V>(schema: string): Document<V> {
    Document(Header(FORMAT_VERSION, KIND, schema), map[])
  }

  /** A call on a document that does not fit the handle fails with the reason and writes nothing. */
  lemma {:induction false} UnreadableIsRefused<V>(doc: Document<V>, call: Call<V>, draw: Uuid)
    ensures var want, outcome := Header(FORMAT_VERSION, KIND, call.schema), Map<V>().Decide(doc, call, draw);
            forall reason :: FirstDifference(reason, doc.header, want) <==> outcome == Keep(Failed(reason))
    ensures doc.header != Header(FORMAT_VERSION, KIND, call.schema) ==>
              exists reason :: Map<V>().Decide(doc, call, draw) == Keep(Failed(reason))
  {
    ReasonIsFirstDifference(doc.header, KIND, call.schema);
  }

  /** What a call was told says whether it wrote: only storing, inserting and removing a present key do. */
  lemma {:induction false} WritesIff<V>(doc: Document<V>, call: Call<V>, draw: Uuid)
    ensures var outcome := Map<V>().Decide(doc, call, draw);
            outcome.Put? <==> match outcome.result
                              case Stored => true
                              case Inserted => true
                              case Removed(removed) => removed.Some?
                              case _ => false
  {
  }

  // --- Histories ---

  type Event<+V> = Entry<Call<V>, MapResult<V>>

  ghost predicate FromEmpty<V>(schema: string, h: seq<Event<V>>) {
    Legal(Map<V>(), Empty(schema), h)
  }

  ghost function After<V>(schema: string, h: seq<Event<V>>): Document<V> {
    DocAfter(Map<V>(), Empty(schema), h)
  }

  /** The call set `key`, or removed it. */
  predicate Touches<V>(e: Event<V>, key: string) {
    e.wrote && match e.op.op
               case Insert(k, _) => k == key
               case InsertIfAbsent(k, _) => k == key
               case Remove(k) => k == key
               case _ => false
  }

  /** What the last call that touched `key` left under it. */
  ghost function LastLeft<V>(h: seq<Event<V>>, key: string): Option<V> {
    if h == [] then None
    else
      var e := h[|h| - 1];
      if !Touches(e, key) then LastLeft(h[..|h| - 1], key)
      else if e.op.op.Remove? then None
      else Some(e.op.op.value)
  }

  /** Under every key the map holds what the last committed write of that key left. */
  lemma {:induction false} LastWriteWins<V>(schema: string, h: seq<Event<V>>)
    requires FromEmpty(schema, h)
    ensures After<V>(schema, h).header == Header(FORMAT_VERSION, KIND, schema)
    ensures forall key :: Lookup(After(schema, h).entries, key) == LastLeft(h, key)
  {
    if h != [] {
      var n := |h| - 1;
      LegalPrefix(Map<V>(), Empty(schema), h, n);
      LastWriteWins(schema, h[..n]);
      assert LegalAt(Map<V>(), Empty(schema), h, n);
      forall key ensures Lookup(After(schema, h).entries, key) == LastLeft(h, key) {
        assert Lookup(After(schema, h[..n]).entries, key) == LastLeft(h[..n], key);
      }
    }
  }

  /** Every reply tells the truth about the map at its place in the history. */
  lemma {:induction false} RepliesAreTrue<V>(schema: string, h: seq<Event<V>>, i: nat)
    requires FromEmpty(schema, h) && i < |h| && h[i].op.schema == schema
    ensures match h[i].op.op
            case Insert(_, _) => h[i].result == Stored
            case InsertIfAbsent(key, _) =>
              h[i].result == if LastLeft(h[..i], key).None? then Inserted else Occupied(LastLeft(h[..i], key).value)
            case Remove(key) => h[i].result == Removed(LastLeft(h[..i], key))
            case GetValue(key) => h[i].result == Got(LastLeft(h[..i], key))
            case Entries =>
              h[i].result.Listed? && forall key :: Lookup(h[i].result.entries, key) == LastLeft(h[..i], key)
  {
    LegalPrefix(Map<V>(), Empty(schema), h, i);
    LastWriteWins(schema, h[..i]);
    assert LegalAt(Map<V>(), Empty(schema), h, i);
    var entries := After(schema, h[..i]).entries;
    match h[i].op.op
    case InsertIfAbsent(key, _) => assert Lookup(entries, key) == LastLeft(h[..i], key);
    case Remove(key) => assert Lookup(entries, key) == LastLeft(h[..i], key);
    case GetValue(key) => assert Lookup(entries, key) == LastLeft(h[..i], key);
    case _ =>
  }

  /** Through a handle for another schema every call is told both schemas, and writes nothing. */
  lemma {:induction false} OtherSchemasAreTold<V>(schema: string, h: seq<Event<V>>, i: nat)
    requires FromEmpty(schema, h) && i < |h| && h[i].op.schema != schema
    ensures h[i].result == Failed(WrongSchema(h[i].op.schema, schema)) && !h[i].wrote
  {
    LegalPrefix(Map<V>(), Empty(schema), h, i);
    LastWriteWins(schema, h[..i]);
    assert LegalAt(Map<V>(), Empty(schema), h, i);
    var want, reason := Header(FORMAT_VERSION, KIND, h[i].op.schema), WrongSchema(h[i].op.schema, schema);
    assert FirstDifference(reason, After<V>(schema, h[..i]).header, want);
    UnreadableIsRefused(After(schema, h[..i]), h[i].op, h[i].draw);
  }

  /** Nobody writes `key` except by inserting it if absent. */
  ghost predicate OnlyContended<V>(h: seq<Event<V>>, key: string) {
    forall i :: 0 <= i < |h| && Touches(h[i], key) ==> h[i].op.op.InsertIfAbsent?
  }

  predicate Contends<V>(e: Event<V>, schema: string, key: string) {
    e.op.schema == schema && e.op.op.InsertIfAbsent? && e.op.op.key == key
  }

  /** Where a key is only ever inserted if absent, the first contender wins and every other one is
      told the winner's value. */
  lemma {:induction false} FirstContenderWins<V>(schema: string, h: seq<Event<V>>, key: string, i: nat, j: nat)
    requires FromEmpty(schema, h) && OnlyContended(h, key)
    requires i < j < |h| && Contends(h[i], schema, key) && Contends(h[j], schema, key)
    ensures h[j].result.Occupied?
    ensures h[i].result.Inserted? ==> h[j].result.current == h[i].op.op.value
    ensures h[i].result.Occupied? ==> h[j].result.current == h[i].result.current
    ensures h[i].result.Inserted? || h[i].result.Occupied?
  {
    LegalPrefix(Map<V>(), Empty(schema), h, i);
    LastWriteWins(schema, h[..i]);
    assert LegalAt(Map<V>(), Empty(schema), h, i);
    var left := if h[i].result.Inserted? then h[i].op.op.value else After(schema, h[..i]).entries[key];
    StaysOnceLeft(schema, h, key, i + 1, j, left);
    assert LegalAt(Map<V>(), Empty(schema), h, j);
    LegalPrefix(Map<V>(), Empty(schema), h, j);
    LastWriteWins(schema, h[..j]);
  }

  lemma {:induction false} StaysOnceLeft<V>(schema: string, h: seq<Event<V>>, key: string, i: nat, j: nat, value: V)
    requires FromEmpty(schema, h) && OnlyContended(h, key) && 0 < i <= j <= |h|
    requires h[i - 1].op.schema == schema
    requires Lookup(After(schema, h[..i - 1]).entries, key) == Some(value)
             || (Contends(h[i - 1], schema, key) && h[i - 1].wrote && h[i - 1].op.op.value == value)
    ensures Lookup(After(schema, h[..j]).entries, key) == Some(value)
    decreases j
  {
    var n := j - 1;
    assert h[..j][..n] == h[..n];
    assert h[..j][n] == h[n];
    if j > i {
      StaysOnceLeft(schema, h, key, i, n, value);
    }
    assert LegalAt(Map<V>(), Empty(schema), h, n);
    if h[n].wrote && !Touches(h[n], key) {
      assert Lookup(After(schema, h[..j]).entries, key) == Lookup(After(schema, h[..n]).entries, key);
    }
  }

  // --- Runs of any number of clients ---

  /** In every run, of all the calls inserting a contended key at most one is told it won. */
  lemma {:induction false} AtMostOneWinner<V>(
    schema: string, states: seq<State<Document<V>, Call<V>, MapResult<V>>>,
    actions: seq<Action<Document<V>, Call<V>>>, n: nat, key: string,
    a: Done<Call<V>, MapResult<V>>, b: Done<Call<V>, MapResult<V>>)
    requires Run(Map<V>(), Empty(schema), states, actions) && n < |states|
    requires OnlyContended(states[n].history, key)
    requires a in states[n].done && b in states[n].done && a.call != b.call
    requires a.op.schema == b.op.schema == schema
    requires a.op.op.InsertIfAbsent? && a.op.op.key == key && a.reply.Returned?
    requires b.op.op.InsertIfAbsent? && b.op.op.key == key && b.reply.Returned?
    ensures !(a.reply.result.Inserted? && b.reply.result.Inserted?)
    ensures a.reply.result.Inserted? && b.reply.result.Occupied? ==> b.reply.result.current == a.op.op.value
  {
    var h := states[n].history;
    Linearizable(Map<V>(), Empty(schema), states, actions, n);
    assert Explained(h, a) && Explained(h, b);
    var i :| TookEffect(h, a, a.reply.result, i);
    var j :| TookEffect(h, b, b.reply.result, j);
    if i < j {
      FirstContenderWins(schema, h, key, i, j);
    } else {
      FirstContenderWins(schema, h, key, j, i);
    }
  }
}
