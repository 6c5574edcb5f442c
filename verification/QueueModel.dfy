/** One queue document and what publish, claim, ack and len do to it. */
module QueueModel {
  import opened Prelude
  import opened CasProtocol
  import opened Metadata
  import opened SortedSearch

  const KIND := "queue"

  datatype Lease = Lease(token: Uuid, expiresAt: nat)

  datatype Message<+V> = Message(id: Uuid, value: V, attempts: nat, lease: Option<Lease>)

  datatype Document<+V> = Document(header: Header, messages: seq<Message<V>>)

  datatype Claim<+V> = Claim(id: Uuid, value: V, token: Uuid, attempt: nat, expiresAt: nat)

  /** `now` is the clock reading, taken before the snapshot is read. */
  datatype Op<+V> =
    | Publish(value: V)
    | TryClaim(now: U64, leaseMillis: nat)
    | Ack(now: U64, id: Uuid, token: Uuid)
    | Len

  /** A call made through a handle opened for `schema`. */
  datatype Call<+V> = Call(schema: string, op: Op<V>)

  datatype QueueError =
    | InvalidLeaseDuration
    | AttemptOverflow
    | IncompatibleQueue(reason: Incompatible)
    | Corrupt

  datatype QueueResult<+V> =
    | Published(id: Uuid)
    | Claimed(claim: Claim<V>)
    | NoneAvailable
    | Acknowledged
    | NotFound
    | LeaseMismatch
    | LeaseExpired
    | Length(n: nat)
    | Failed(error: QueueError)

  function IdOf<V>(m: Message<V>): Uuid { m.id }

  predicate Available<V>(m: Message<V>, now: nat) {
    m.lease.None? || m.lease.value.expiresAt <= now
  }

  /** The first message a claim at `now` may take. */
  function FirstAvailable<V>(ms: seq<Message<V>>, now: nat): (r: Option<nat>)
    ensures r.Some? ==> r.value < |ms| && Available(ms[r.value], now)
                        && forall i :: 0 <= i < r.value ==> !Available(ms[i], now)
    ensures r.None? ==> forall i :: 0 <= i < |ms| ==> !Available(ms[i], now)
  {
    if ms == [] then None
    else if Available(ms[0], now) then Some(0)
    else
      match FirstAvailable(ms[1..], now)
      case Some(i) => Some(i + 1)
      case None => None
  }

  /** Why a snapshot cannot be used through a handle for `schema`, if it cannot. */
  function ReadError<V>(doc: Document<V>, schema: string): Option<QueueError> {
    match Validate(doc.header, KIND, schema)
    case Some(reason) => Some(IncompatibleQueue(reason))
    case None => if NeighboursIncrease(doc.messages, IdOf<V>) then None else Some(Corrupt)
  }

  /** A lease must last at least a millisecond and end within 64 bits. */
  function Early<V>(call: Call<V>): Option<QueueResult<V>> {
    if call.op.TryClaim? && !(0 < call.op.leaseMillis && call.op.now + call.op.leaseMillis <= U64_MAX)
    then Some(Failed(InvalidLeaseDuration))
    else None
  }

  function ApplyPublish<V>(doc: Document<V>, value: V, id: Uuid): Outcome<Document<V>, QueueResult<V>> {
    Put(doc.(messages := Insert(doc.messages, IdOf<V>, Message(id, value, 0, None))), Published(id))
  }

  function ApplyClaim<V>(
    doc: Document<V>, now: nat, leaseMillis: nat, token: Uuid): Outcome<Document<V>, QueueResult<V>> {
    match FirstAvailable(doc.messages, now)
    case None => Keep(NoneAvailable)
    case Some(i) =>
      var m := doc.messages[i];
      if m.attempts + 1 > U32_MAX then Keep(Failed(AttemptOverflow))
      else
        var expiresAt := now + leaseMillis;
        var leased := m.(attempts := m.attempts + 1, lease := Some(Lease(token, expiresAt)));
        Put(doc.(messages := doc.messages[i := leased]),
            Claimed(Claim(m.id, m.value, token, m.attempts + 1, expiresAt)))
  }

  function ApplyAck<V>(doc: Document<V>, now: nat, id: Uuid, token: Uuid): Outcome<Document<V>, QueueResult<V>> {
    match IndexOf(doc.messages, IdOf<V>, id)
    case None => Keep(NotFound)
    case Some(i) =>
      var lease := doc.messages[i].lease;
      if lease.None? || lease.value.token != token then Keep(LeaseMismatch)
      else if lease.value.expiresAt <= now then Keep(LeaseExpired)
      else Put(doc.(messages := doc.messages[..i] + doc.messages[i + 1..]), Acknowledged)
  }

  function Apply<V>(doc: Document<V>, call: Call<V>, draw: Uuid): Outcome<Document<V>, QueueResult<V>> {
    match ReadError(doc, call.schema)
    case Some(error) => Keep(Failed(error))
    case None =>
      match call.op
      case Publish(value) => ApplyPublish(doc, value, draw)
      case TryClaim(now, leaseMillis) => ApplyClaim(doc, now, leaseMillis, draw)
      case Ack(now, id, token) => ApplyAck(doc, now, id, token)
      case Len => Keep(Length(|doc.messages|))
  }

  function Queue<V>(): Structure<Document<V>, Call<V>, QueueResult<V>> {
    Structure(Early<V>, Apply<V>)
  }

  function Empty<V>(schema: string): Document<V> {
    Document(Header(FORMAT_VERSION, KIND, schema), [])
  }

  ghost predicate Sorted<V>(doc: Document<V>) {
    Increasing(doc.messages, IdOf<V>)
  }

  /** An acceptable snapshot is exactly one with this handle's metadata and strictly increasing identifiers. */
  lemma {:induction false} ReadableIffSorted<V>(doc: Document<V>, schema: string)
    ensures ReadError(doc, schema).None? <==> doc.header == Header(FORMAT_VERSION, KIND, schema) && Sorted(doc)
  {
    NeighboursSuffice(doc.messages, IdOf<V>);
  }

  /** A lease that is empty or ends beyond 64 bits is refused, whatever is stored. */
  lemma {:induction false} BadLeaseIsRefused<V>(doc: Document<V>, call: Call<V>, draw: Uuid)
    ensures Queue<V>().Decide(doc, call, draw) == Keep(Failed(InvalidLeaseDuration)) <==>
              call.op.TryClaim? && (call.op.leaseMillis == 0 || call.op.now + call.op.leaseMillis > U64_MAX)
    ensures Early(call).Some? <==> Queue<V>().Decide(doc, call, draw) == Keep(Failed(InvalidLeaseDuration))
  {
  }

  /** What a call was told says whether it wrote: only publishing, claiming and acknowledging a message do. */
  lemma {:induction false} WritesIff<V>(doc: Document<V>, call: Call<V>, draw: Uuid)
    ensures var outcome := Queue<V>().Decide(doc, call, draw);
            outcome.Put? <==> outcome.result.Published? || outcome.result.Claimed? || outcome.result.Acknowledged?
  {
  }

  /** Any other call on a document that does not fit the handle, or is out of order, fails with the reason and
      writes nothing. */
  lemma {:induction false} UnreadableIsRefused<V>(doc: Document<V>, call: Call<V>, draw: Uuid)
    requires Early(call).None?
    ensures var want, outcome := Header(FORMAT_VERSION, KIND, call.schema), Queue<V>().Decide(doc, call, draw);
            && (doc.header == want && !Sorted(doc) <==> outcome == Keep(Failed(Corrupt)))
            && forall reason ::
                 FirstDifference(reason, doc.header, want) <==> outcome == Keep(Failed(IncompatibleQueue(reason)))
    ensures doc.header != Header(FORMAT_VERSION, KIND, call.schema) ==>
              exists reason :: Queue<V>().Decide(doc, call, draw) == Keep(Failed(IncompatibleQueue(reason)))
  {
    ReasonIsFirstDifference(doc.header, KIND, call.schema);
    ReadableIffSorted(doc, call.schema);
  }

  // --- A queue as a plain set of messages ---

  /** Publishing a new identifier adds one fresh message and touches nothing else. */
  lemma {:induction false} PublishAdds<V>(doc: Document<V>, value: V, id: Uuid)
    requires Sorted(doc) && forall m <- doc.messages :: m.id != id
    ensures var after := ApplyPublish(doc, value, id).doc;
            && Sorted(after) && after.header == doc.header
            && forall m :: m in after.messages <==> m in doc.messages || m == Message(id, value, 0, None)
  {
    InsertKeepsOrder(doc.messages, IdOf<V>, Message(id, value, 0, None));
  }

  /** A repeated identifier is never repaired: publishing keeps the queue readable exactly if the identifier is
      new, and otherwise every later read finds the queue corrupt. */
  lemma {:induction false} PublishKeepsReadableIffNew<V>(doc: Document<V>, schema: string, value: V, id: Uuid)
    requires ReadError(doc, schema).None?
    ensures var after := ApplyPublish(doc, value, id).doc;
            && (Sorted(after) <==> forall m <- doc.messages :: m.id != id)
            && ReadError(after, schema) == if forall m <- doc.messages :: m.id != id then None else Some(Corrupt)
  {
    var added := Message(id, value, 0, None);
    ReadableIffSorted(doc, schema);
    ReadableIffSorted(ApplyPublish(doc, value, id).doc, schema);
    OrderIffNew(doc.messages, IdOf<V>, added);
  }

  /** A claim takes the available message with the least identifier; none is taken only if
      none is available. The lease and the attempt count of that message are all it changes. */
  lemma {:induction false} ClaimTakesOldest<V(!new)>(doc: Document<V>, now: nat, leaseMillis: nat, token: Uuid)
    requires Sorted(doc)
    ensures var o := ApplyClaim(doc, now, leaseMillis, token);
            if o.Keep? && o.result.NoneAvailable? then forall m <- doc.messages :: !Available(m, now)
            else
              exists m <- doc.messages ::
                && Available(m, now)
                && (forall other <- doc.messages :: Available(other, now) ==> m.id <= other.id)
                && if m.attempts + 1 > U32_MAX then o == Keep(Failed(AttemptOverflow))
                   else ClaimedOnly(doc, o, m, now + leaseMillis, token)
  {
    match FirstAvailable(doc.messages, now)
    case None =>
    case Some(i) =>
      var m := doc.messages[i];
      assert m in doc.messages;
      FirstIsOldest(doc.messages, now, i);
      if m.attempts + 1 <= U32_MAX { ClaimLeasesOne(doc, now, leaseMillis, token, i); }
  }

  lemma {:induction false} ClaimLeasesOne<V(!new)>(doc: Document<V>, now: nat, leaseMillis: nat, token: Uuid, i: nat)
    requires Sorted(doc) && FirstAvailable(doc.messages, now) == Some(i) && doc.messages[i].attempts + 1 <= U32_MAX
    ensures ClaimedOnly(doc, ApplyClaim(doc, now, leaseMillis, token), doc.messages[i], now + leaseMillis, token)
  {
    var m := doc.messages[i];
    var leased := m.(attempts := m.attempts + 1, lease := Some(Lease(token, now + leaseMillis)));
    UpdateKeepsOrder(doc.messages, IdOf<V>, i, leased);
  }

  lemma {:induction false} FirstIsOldest<V>(ms: seq<Message<V>>, now: nat, i: nat)
    requires Increasing(ms, IdOf<V>) && FirstAvailable(ms, now) == Some(i)
    ensures forall other <- ms :: Available(other, now) ==> ms[i].id <= other.id
  {
    forall other | other in ms && Available(other, now) ensures ms[i].id <= other.id {
      var j :| 0 <= j < |ms| && ms[j] == other;
      assert i < j ==> IdOf(ms[i]) < IdOf(ms[j]);
    }
  }

  ghost predicate ClaimedOnly<V(!new)>(
    doc: Document<V>, o: Outcome<Document<V>, QueueResult<V>>, m: Message<V>, expiresAt: nat, token: Uuid)
  {
    && o.Put?
    && o.result == Claimed(Claim(m.id, m.value, token, m.attempts + 1, expiresAt))
    && Sorted(o.doc) && o.doc.header == doc.header
    && forall x :: x in o.doc.messages <==>
                   || (x in doc.messages && x != m)
                   || x == Message(m.id, m.value, m.attempts + 1, Some(Lease(token, expiresAt)))
  }

  /** An ack removes the message exactly when it is present under an unexpired lease with this
      token, and otherwise changes nothing and says why. */
  lemma {:induction false} AckRemovesHeldMessage<V>(doc: Document<V>, now: nat, id: Uuid, token: Uuid)
    requires Sorted(doc)
    ensures var o := ApplyAck(doc, now, id, token);
            && (o.Put? <==> exists m <- doc.messages :: Held(m, now, id, token))
            && (o.Put? ==>
                  && o.result == Acknowledged
                  && Sorted(o.doc) && o.doc.header == doc.header
                  && forall x :: x in o.doc.messages <==> x in doc.messages && x.id != id)
            && (o.Keep? ==> o.result ==
                              if forall m <- doc.messages :: m.id != id then NotFound
                              else if exists m <- doc.messages ::
                                        m.id == id && m.lease.Some? && m.lease.value.token == token
                              then LeaseExpired
                              else LeaseMismatch)
  {
    var ms := doc.messages;
    match IndexOf(ms, IdOf<V>, id)
    case None =>
    case Some(i) =>
      forall m | m in ms && m.id == id ensures m == ms[i] {
        var j :| 0 <= j < |ms| && ms[j] == m;
        SameIdSamePlace(ms, IdOf<V>, i, j);
      }
      assert ms[i] in ms && IdOf(ms[i]) == id;
      RemoveKeepsOrder(ms, IdOf<V>, i);
  }

  /** Claiming and acknowledging never disagree about a lease: at any reading a message may be claimed exactly if no
      token would acknowledge it. */
  lemma {:induction false} AvailableIffNobodyHolds<V>(doc: Document<V>, m: Message<V>, now: nat)
    requires Sorted(doc) && m in doc.messages
    ensures Available(m, now) <==> forall token: Uuid :: !ApplyAck(doc, now, m.id, token).Put?
  {
    forall token: Uuid ensures ApplyAck(doc, now, m.id, token).Put? <==> Held(m, now, m.id, token) {
      AckRemovesHeldMessage(doc, now, m.id, token);
      forall other | other in doc.messages && other.id == m.id ensures other == m {
        var i, j :| 0 <= i < |doc.messages| && 0 <= j < |doc.messages|
                    && doc.messages[i] == m && doc.messages[j] == other;
        SameIdSamePlace(doc.messages, IdOf<V>, i, j);
      }
    }
    if m.lease.Some? && now < m.lease.value.expiresAt { assert Held(m, now, m.id, m.lease.value.token); }
  }

  predicate Held<V>(m: Message<V>, now: nat, id: Uuid, token: Uuid) {
    m.id == id && m.lease.Some? && m.lease.value.token == token && now < m.lease.value.expiresAt
  }
}
