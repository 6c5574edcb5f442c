/** One log document, its operations, and what every history of appends looks like. */
module LogModel {
  import opened Prelude
  import opened CasProtocol
  import opened Linearizability
  import opened Metadata
  import opened SortedSearch

  const KIND := "log"

  datatype Record<+V> = Record(id: Uuid, value: V)

  datatype Document<+V> = Document(header: Header, records: seq<Record<V>>)

  datatype Op<+V> = Append(value: V) | GetRecord(id: Uuid) | Records | RecordsAfter(id: Uuid)

  datatype Call<+V> = Call(schema: string, op: Op<V>)

  datatype LogError = IncompatibleLog(reason: Incompatible) | Corrupt

  datatype LogResult<+V> =
    | Appended(id: Uuid)
    | Got(found: Option<Record<V>>)
    | Listed(records: seq<Record<V>>)
    | Failed(error: LogError)

  function IdOf<V>(r: Record<V>): Uuid { r.id }

  function ReadError<V>(doc: Document<V>, schema: string): Option<LogError> {
    match Validate(doc.header, KIND, schema)
    case Some(reason) => Some(IncompatibleLog(reason))
    case None => if NeighboursIncrease(doc.records, IdOf<V>) then None else Some(Corrupt)
  }

  /** How many leading records lie at or below `id`. */
  function RankAfter<V>(rs: seq<Record<V>>, id: Uuid): (n: nat)
    ensures n <= |rs|
    ensures forall i :: 0 <= i < n ==> rs[i].id <= id
    ensures n < |rs| ==> id < rs[n].id
  {
    if rs == [] || id < rs[0].id then 0 else 1 + RankAfter(rs[1..], id)
  }

  lemma {:induction false} RankAfterIs<V>(rs: seq<Record<V>>, id: Uuid, n: nat)
    requires n <= |rs| && forall i :: 0 <= i < |rs| ==> (rs[i].id <= id <==> i < n)
    ensures RankAfter(rs, id) == n
    decreases n
  {
    if n > 0 { RankAfterIs(rs[1..], id, n - 1); }
  }

  function Apply<V>(doc: Document<V>, call: Call<V>, draw: Uuid): Outcome<Document<V>, LogResult<V>> {
    match ReadError(doc, call.schema)
    case Some(error) => Keep(Failed(error))
    case None =>
      match call.op
      case Append(value) =>
        Put(doc.(records := Insert(doc.records, IdOf<V>, Record(draw, value))), Appended(draw))
      case GetRecord(id) =>
        var i := IndexOf(doc.records, IdOf<V>, id);
        Keep(Got(if i.None? then None else Some(doc.records[i.value])))
      case Records => Keep(Listed(doc.records))
      case RecordsAfter(id) => Keep(Listed(doc.records[RankAfter(doc.records, id)..]))
  }

  function Log<V>(): Structure<Document<V>, Call<V>, LogResult<V>> {
    Structure((call: Call<V>) => None, Apply<V>)
  }

  function Empty<V>(schema: string): Document<V> {
    Document(Header(FORMAT_VERSION, KIND, schema), [])
  }

  ghost predicate Sorted<V>(doc: Document<V>) {
    Increasing(doc.records, IdOf<V>)
  }

  lemma {:induction false} ReadableIffSorted<V>(doc: Document<V>, schema: string)
    ensures ReadError(doc, schema).None? <==> doc.header == Header(FORMAT_VERSION, KIND, schema) && Sorted(doc)
  {
    NeighboursSuffice(doc.records, IdOf<V>);
  }

  /** What a call was told says whether it wrote: only appending does. */
  lemma {:induction false} WritesIff<V>(doc: Document<V>, call: Call<V>, draw: Uuid)
    ensures var outcome := Log<V>().Decide(doc, call, draw); outcome.Put? <==> outcome.result.Appended?
  {
  }

  /** A call on a document that does not fit the handle, or is out of order, fails with the reason and writes
      nothing. */
  lemma {:induction false} UnreadableIsRefused<V>(doc: Document<V>, call: Call<V>, draw: Uuid)
    ensures var want, outcome := Header(FORMAT_VERSION, KIND, call.schema), Log<V>().Decide(doc, call, draw);
            && (doc.header == want && !Sorted(doc) <==> outcome == Keep(Failed(Corrupt)))
            && forall reason ::
                 FirstDifference(reason, doc.header, want) <==> outcome == Keep(Failed(IncompatibleLog(reason)))
    ensures doc.header != Header(FORMAT_VERSION, KIND, call.schema) ==>
              exists reason :: Log<V>().Decide(doc, call, draw) == Keep(Failed(IncompatibleLog(reason)))
  {
    ReasonIsFirstDifference(doc.header, KIND, call.schema);
    ReadableIffSorted(doc, call.schema);
  }

  // --- The searches agree with plain filtering ---

  ghost function Greater<V>(rs: seq<Record<V>>, id: Uuid): seq<Record<V>> {
    if rs == [] then []
    else (if rs[0].id > id then [rs[0]] else []) + Greater(rs[1..], id)
  }

  lemma {:induction false} AllGreater<V>(rs: seq<Record<V>>, id: Uuid)
    requires forall r <- rs :: r.id > id
    ensures Greater(rs, id) == rs
  {
    if rs != [] {
      assert rs[0] in rs;
      AllGreater(rs[1..], id);
    }
  }

  /** For every identifier, present or absent, `records_after` is the filter of `records`. */
  lemma {:induction false} SuffixIsFilter<V>(rs: seq<Record<V>>, id: Uuid)
    requires Increasing(rs, IdOf<V>)
    ensures rs[RankAfter(rs, id)..] == Greater(rs, id)
  {
    if rs != [] {
      if id < rs[0].id {
        forall r | r in rs ensures r.id > id {
          var i :| 0 <= i < |rs| && rs[i] == r;
          assert i > 0 ==> IdOf(rs[0]) < IdOf(rs[i]);
        }
        AllGreater(rs, id);
      } else {
        assert Increasing(rs[1..], IdOf<V>);
        SuffixIsFilter(rs[1..], id);
      }
    }
  }

  /** `get` finds the record exactly when it is listed. */
  lemma {:induction false} GetIsMembership<V>(rs: seq<Record<V>>, r: Record<V>)
    requires Increasing(rs, IdOf<V>)
    ensures r in rs <==> IndexOf(rs, IdOf<V>, r.id).Some? && rs[IndexOf(rs, IdOf<V>, r.id).value] == r
  {
    if r in rs {
      var i :| 0 <= i < |rs| && rs[i] == r;
      assert IdOf(rs[i]) == r.id;
      SameIdSamePlace(rs, IdOf<V>, IndexOf(rs, IdOf<V>, r.id).value, i);
    }
  }

  // --- Histories ---

  type Event<+V> = Entry<Call<V>, LogResult<V>>

  ghost predicate FromEmpty<V>(schema: string, h: seq<Event<V>>) {
    Legal(Log<V>(), Empty(schema), h) && DistinctDraws(h)
  }

  ghost function After<V>(schema: string, h: seq<Event<V>>): Document<V> {
    DocAfter(Log<V>(), Empty(schema), h)
  }

  /** `r` was appended by some call of `h`. */
  ghost predicate AppendedIn<V>(h: seq<Event<V>>, r: Record<V>) {
    exists i :: 0 <= i < |h| && h[i].wrote && h[i].draw == r.id && h[i].op.op == Append(r.value)
  }

  /** The log holds exactly the appended records, in identifier order. */
  lemma {:induction false} LogHoldsAppends<V(!new)>(schema: string, h: seq<Event<V>>)
    requires FromEmpty(schema, h)
    ensures Sorted(After(schema, h)) && After<V>(schema, h).header == Header(FORMAT_VERSION, KIND, schema)
    ensures forall r: Record<V> :: r in After(schema, h).records <==> AppendedIn(h, r)
  {
    if h != [] {
      var n := |h| - 1;
      var g, e := h[..n], h[n];
      LegalPrefix(Log<V>(), Empty(schema), h, n);
      LogHoldsAppends(schema, g);
      assert LegalAt(Log<V>(), Empty(schema), h, n);
      var before, after := After(schema, g), After(schema, h);
      forall r: Record<V> ensures AppendedIn(h, r) <==>
                                  AppendedIn(g, r) || (e.wrote && r.id == e.draw && e.op.op == Append(r.value))
      {
        AppendedInLast(h, r);
      }
      if e.wrote {
        var r := Record(e.draw, e.op.op.value);
        forall other | other in before.records ensures other.id != r.id { assert AppendedIn(g, other); }
        InsertKeepsOrder(before.records, IdOf<V>, r);
      }
    }
  }

  lemma {:induction false} AppendedInLast<V>(h: seq<Event<V>>, r: Record<V>)
    requires h != []
    ensures var e := h[|h| - 1];
            AppendedIn(h, r) <==>
            AppendedIn(h[..|h| - 1], r) || (e.wrote && r.id == e.draw && e.op.op == Append(r.value))
  {
    var g := h[..|h| - 1];
    if AppendedIn(g, r) {
      var i :| 0 <= i < |g| && g[i].wrote && g[i].draw == r.id && g[i].op.op == Append(r.value);
      assert h[i] == g[i];
    }
    if AppendedIn(h, r) {
      var i :| 0 <= i < |h| && h[i].wrote && h[i].draw == r.id && h[i].op.op == Append(r.value);
      assert i < |h| - 1 ==> g[i] == h[i];
    }
  }

  /** `a` can be obtained from `b` by leaving records out: `places` says where each went. */
  ghost predicate Embeds<V>(a: seq<Record<V>>, b: seq<Record<V>>, places: seq<nat>) {
    && |places| == |a|
    && (forall i :: 0 <= i < |a| ==> places[i] < |b| && b[places[i]] == a[i])
    && forall i, j :: 0 <= i < j < |a| ==> places[i] < places[j]
  }

  ghost predicate Subsequence<V>(a: seq<Record<V>>, b: seq<Record<V>>) {
    exists places :: Embeds(a, b, places)
  }

  lemma {:induction false} SortedSubsetEmbeds<V>(a: seq<Record<V>>, b: seq<Record<V>>)
    requires Increasing(a, IdOf<V>) && Increasing(b, IdOf<V>)
    requires forall r <- a :: r in b
    ensures Subsequence(a, b)
  {
    forall i | 0 <= i < |a|
      ensures IndexOf(b, IdOf<V>, a[i].id).Some? && b[IndexOf(b, IdOf<V>, a[i].id).value] == a[i]
    {
      assert a[i] in b;
      GetIsMembership(b, a[i]);
    }
    var places := seq(|a|, i requires 0 <= i < |a| => IndexOf(b, IdOf<V>, a[i].id).value);
    forall i, j | 0 <= i < j < |a| ensures places[i] < places[j] {
      assert IdOf(a[i]) < IdOf(a[j]);
      SameIdSamePlace(b, IdOf<V>, places[i], places[j]);
    }
    assert Embeds(a, b, places);
  }

  /** Of two snapshots, the earlier one is an order-preserving part of the later one. */
  lemma {:induction false} SnapshotsGrow<V(!new)>(schema: string, h: seq<Event<V>>, i: nat, j: nat)
    requires FromEmpty(schema, h) && i <= j <= |h|
    ensures Subsequence(After(schema, h[..i]).records, After(schema, h[..j]).records)
  {
    LegalPrefix(Log<V>(), Empty(schema), h, i);
    LegalPrefix(Log<V>(), Empty(schema), h, j);
    LogHoldsAppends(schema, h[..i]);
    LogHoldsAppends(schema, h[..j]);
    var a, b := After(schema, h[..i]).records, After(schema, h[..j]).records;
    forall r | r in a ensures r in b {
      assert AppendedIn(h[..i], r);
      var k :| 0 <= k < i && h[k].wrote && h[k].draw == r.id && h[k].op.op == Append(r.value);
      assert h[..j][k] == h[k];
      assert AppendedIn(h[..j], r);
    }
    SortedSubsetEmbeds(a, b);
  }

  /** A reader that saw the log after `i` calls and resumes with `records_after(last)` after `j` misses nothing if and
      only if all appends in between were given identifiers above `last`; the records missed
      are the others. */
  lemma {:induction false} ResumingMissesNothingIff<V(!new)>(
    schema: string, h: seq<Event<V>>, i: nat, j: nat, last: Uuid)
    requires FromEmpty(schema, h) && i <= j <= |h|
    ensures var seen, now := After(schema, h[..i]).records, After(schema, h[..j]).records;
            && ((forall r <- now :: r in seen || r in Greater(now, last)) <==> AppendedAbove(h, i, j, last))
            && forall r <- now :: r in seen || r in Greater(now, last) || AppendedBelow(h, i, j, last, r)
  {
    LegalPrefix(Log<V>(), Empty(schema), h, i);
    LegalPrefix(Log<V>(), Empty(schema), h, j);
    LogHoldsAppends(schema, h[..i]);
    LogHoldsAppends(schema, h[..j]);
    var seen, now := After(schema, h[..i]).records, After(schema, h[..j]).records;
    forall r: Record<V> ensures r in Greater(now, last) <==> r in now && r.id > last {
      GreaterHolds(now, last, r);
    }
    forall r | r in now && r !in seen ensures AppendedBetween(h, i, j, r) {
      assert AppendedIn(h[..j], r) && !AppendedIn(h[..i], r);
      NewAppend(h, i, j, r);
    }
    forall r | AppendedBetween(h, i, j, r) ensures r in now && r !in seen {
      OldAndNewDiffer(h, i, j, r);
    }
    if forall r <- now :: r in seen || r in Greater(now, last) {
      forall k | i <= k < j && h[k].wrote && h[k].op.op.Append? ensures h[k].draw > last {
        assert AppendedBetween(h, i, j, Record(h[k].draw, h[k].op.op.value));
      }
    }
  }

  /** All appends from the i-th to the j-th call have identifiers above `last`. */
  ghost predicate AppendedAbove<V>(h: seq<Event<V>>, i: nat, j: nat, last: Uuid)
    requires i <= j <= |h|
  {
    forall k :: i <= k < j && h[k].wrote && h[k].op.op.Append? ==> h[k].draw > last
  }

  ghost predicate AppendedBetween<V>(h: seq<Event<V>>, i: nat, j: nat, r: Record<V>)
    requires i <= j <= |h|
  {
    exists k :: i <= k < j && h[k].wrote && h[k].draw == r.id && h[k].op.op == Append(r.value)
  }

  ghost predicate AppendedBelow<V>(h: seq<Event<V>>, i: nat, j: nat, last: Uuid, r: Record<V>)
    requires i <= j <= |h|
  {
    AppendedBetween(h, i, j, r) && r.id <= last
  }

  lemma {:induction false} GreaterHolds<V>(rs: seq<Record<V>>, id: Uuid, r: Record<V>)
    ensures r in Greater(rs, id) <==> r in rs && r.id > id
  {
    if rs != [] { GreaterHolds(rs[1..], id, r); }
  }

  lemma {:induction false} NewAppend<V>(h: seq<Event<V>>, i: nat, j: nat, r: Record<V>)
    requires i <= j <= |h| && AppendedIn(h[..j], r) && !AppendedIn(h[..i], r)
    ensures AppendedBetween(h, i, j, r)
  {
    assert forall l :: 0 <= l < i ==> h[..i][l] == h[l];
    var k :| 0 <= k < j && h[..j][k].wrote && h[..j][k].draw == r.id && h[..j][k].op.op == Append(r.value);
  }

  lemma {:induction false} OldAndNewDiffer<V>(h: seq<Event<V>>, i: nat, j: nat, r: Record<V>)
    requires DistinctDraws(h) && i <= j <= |h| && AppendedBetween(h, i, j, r)
    ensures AppendedIn(h[..j], r) && !AppendedIn(h[..i], r)
  {
    var k :| i <= k < j && h[k].wrote && h[k].draw == r.id && h[k].op.op == Append(r.value);
    assert h[..j][k] == h[k];
    assert forall l :: 0 <= l < i ==> h[..i][l] == h[l] && h[l].draw != h[k].draw;
  }

  /** Every read reports exactly what the log held at that point of the history. */
  lemma {:induction false} ReadsAreTrue<V(!new)>(schema: string, h: seq<Event<V>>, i: nat)
    requires FromEmpty(schema, h) && i < |h| && h[i].op.schema == schema
    ensures var now := After(schema, h[..i]).records;
            match h[i].op.op
            case Append(_) => h[i].result == Appended(h[i].draw) && h[i].wrote
            case GetRecord(id) =>
              && h[i].result.Got?
              && (forall r :: h[i].result.found == Some(r) <==> r in now && r.id == id)
            case Records => h[i].result == Listed(now)
            case RecordsAfter(id) => h[i].result == Listed(Greater(now, id))
  {
    LegalPrefix(Log<V>(), Empty(schema), h, i);
    var doc := After(schema, h[..i]);
    LogHoldsAppends(schema, h[..i]);
    ReadableIffSorted(doc, schema);
    assert LegalAt(Log<V>(), Empty(schema), h, i);
    match h[i].op.op
    case GetRecord(id) =>
      forall r: Record<V> | r.id == id ensures h[i].result.found == Some(r) <==> r in doc.records {
        GetIsMembership(doc.records, r);
      }
    case RecordsAfter(id) => SuffixIsFilter(doc.records, id);
    case _ =>
  }

  /** Through a handle for another schema every call is told both schemas, and writes nothing. */
  lemma {:induction false} OtherSchemasAreTold<V(!new)>(schema: string, h: seq<Event<V>>, i: nat)
    requires FromEmpty(schema, h) && i < |h| && h[i].op.schema != schema
    ensures h[i].result == Failed(IncompatibleLog(WrongSchema(h[i].op.schema, schema))) && !h[i].wrote
  {
    LegalPrefix(Log<V>(), Empty(schema), h, i);
    LogHoldsAppends(schema, h[..i]);
    assert LegalAt(Log<V>(), Empty(schema), h, i);
    var want, reason := Header(FORMAT_VERSION, KIND, h[i].op.schema), WrongSchema(h[i].op.schema, schema);
    assert FirstDifference(reason, After<V>(schema, h[..i]).header, want);
    UnreadableIsRefused(After(schema, h[..i]), h[i].op, h[i].draw);
  }

  // --- Runs of any number of clients ---

  /** Whatever the interleaving: if one listing returned before another was asked for, the first is an
      order-preserving part of the second, with the same values. */
  lemma {:induction false} ListingsGrow<V(!new)>(
    schema: string, states: seq<State<Document<V>, Call<V>, LogResult<V>>>,
    actions: seq<Action<Document<V>, Call<V>>>, n: nat,
    first: Done<Call<V>, LogResult<V>>, second: Done<Call<V>, LogResult<V>>)
    requires Run(Log<V>(), Empty(schema), states, actions) && n < |states|
    requires first in states[n].done && second in states[n].done && first.returnedAt < second.call
    requires first.op == Call(schema, Records) && second.op == Call(schema, Records)
    requires first.reply.Returned? && second.reply.Returned?
    ensures first.reply.result.Listed? && second.reply.result.Listed?
    ensures Subsequence(first.reply.result.records, second.reply.result.records)
  {
    var h := states[n].history;
    Linearizable(Log<V>(), Empty(schema), states, actions, n);
    RealTimeOrder(Log<V>(), Empty(schema), states, actions, n, first, second);
    var i, j :| TookEffect(h, first, first.reply.result, i) && TookEffect(h, second, second.reply.result, j) && i < j;
    ReadsAreTrue(schema, h, i);
    ReadsAreTrue(schema, h, j);
    SnapshotsGrow(schema, h, i, j);
  }

  /** An append that returned before a listing was asked for is in that listing, under the identifier
      it was given; an append that reported a conflict is in no listing at all. */
  lemma {:induction false} AppendsAreListed<V(!new)>(
    schema: string, states: seq<State<Document<V>, Call<V>, LogResult<V>>>,
    actions: seq<Action<Document<V>, Call<V>>>, n: nat,
    append: Done<Call<V>, LogResult<V>>, listing: Done<Call<V>, LogResult<V>>)
    requires Run(Log<V>(), Empty(schema), states, actions) && n < |states|
    requires append in states[n].done && listing in states[n].done
    requires append.op.schema == schema && append.op.op.Append? && listing.op == Call(schema, Records)
    requires listing.reply.Returned?
    ensures listing.reply.result.Listed?
    ensures append.reply.Returned? && append.returnedAt < listing.call ==>
              Record(append.draw, append.op.op.value) in listing.reply.result.records
    ensures append.reply.Conflicted? ==> forall r <- listing.reply.result.records :: r.id != append.draw
  {
    var h := states[n].history;
    Linearizable(Log<V>(), Empty(schema), states, actions, n);
    assert Explained(h, listing) && Explained(h, append);
    var j :| TookEffect(h, listing, listing.reply.result, j);
    ReadsAreTrue(schema, h, j);
    LegalPrefix(Log<V>(), Empty(schema), h, j);
    LogHoldsAppends(schema, h[..j]);
    if append.reply.Returned? && append.returnedAt < listing.call {
      var i :| TookEffect(h, append, append.reply.result, i);
      assert h[i].at < h[j].at;
      EarlierAppendIsIn(schema, h, i, j);
    }
    if append.reply.Conflicted? {
      forall r | r in listing.reply.result.records ensures r.id != append.draw {
        AppendedByCall(h, j, r);
      }
    }
  }

  lemma {:induction false} EarlierAppendIsIn<V(!new)>(schema: string, h: seq<Event<V>>, i: nat, j: nat)
    requires FromEmpty(schema, h) && i < j < |h| && h[i].op.schema == schema && h[i].op.op.Append?
    ensures AppendedIn(h[..j], Record(h[i].draw, h[i].op.op.value))
  {
    ReadsAreTrue(schema, h, i);
    assert h[..j][i] == h[i];
  }

  lemma {:induction false} AppendedByCall<V>(h: seq<Event<V>>, j: nat, r: Record<V>)
    requires j <= |h| && AppendedIn(h[..j], r)
    ensures exists k :: 0 <= k < |h| && h[k].draw == r.id
  {
    var k :| 0 <= k < j && h[..j][k].wrote && h[..j][k].draw == r.id && h[..j][k].op.op == Append(r.value);
    assert h[k].draw == r.id;
  }
}
