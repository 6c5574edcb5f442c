/** What the queue promises its users: of every committed history, and of every run of any
    number of clients. Clock readings are arbitrary: each lease window starts at the
    reading its claim took before reading the queue. */
module QueueSafety {
  import opened Prelude
  import opened CasProtocol
  import opened Linearizability
  import opened Metadata
  import opened SortedSearch
  import opened QueueModel
  import opened QueueHistory

  // --- Histories ---

  predicate LiveAt<V>(e: Event<V>, time: nat) {
    e.result.Claimed? && e.op.op.TryClaim? && e.op.op.now <= time < e.result.claim.expiresAt
  }

  /** Leases of one message never overlap: each starts no earlier than the previous one ends. */
  lemma {:induction false} LeaseExclusion<V(!new)>(schema: string, h: seq<Event<V>>, id: Uuid, i: nat, j: nat)
    requires FromEmpty(schema, h) && i < j < |h| && Claims(h[i], id) && Claims(h[j], id)
    ensures h[i].op.op.now < h[i].result.claim.expiresAt <= h[j].op.op.now < h[j].result.claim.expiresAt <= U64_MAX
    ensures h[i].result.claim.token != h[j].result.claim.token
    ensures forall time: nat :: !(LiveAt(h[i], time) && LiveAt(h[j], time))
  {
    HistoryDeterminesDocument(schema, h);
    assert OrderlyAt(h, id);
    ClaimAt(h, id, i);
    ClaimAt(h, id, j);
    ClaimsInOrder(h, id, i, j);
  }

  /** The k-th committed claim of a message carries attempt k, and k fits 32 bits. */
  lemma {:induction false} AttemptsCountClaims<V(!new)>(schema: string, h: seq<Event<V>>, id: Uuid, i: nat)
    requires FromEmpty(schema, h) && i < |h| && Claims(h[i], id)
    ensures h[i].result.claim.attempt == |ClaimsOf(h[..i + 1], id)| <= U32_MAX
    ensures ValueOf(h, id) == Some(h[i].result.claim.value)
    ensures h[i].op.op.now < h[i].result.claim.expiresAt <= U64_MAX
  {
    HistoryDeterminesDocument(schema, h);
    assert OrderlyAt(h, id);
    ClaimAt(h, id, i);
  }

  /** A recorded claim was made at some place, and the last record at the last such place. */
  lemma {:induction false} LastClaimAt<V>(h: seq<Event<V>>, id: Uuid) returns (i: nat)
    requires ClaimsOf(h, id) != []
    ensures i < |h| && Claims(h[i], id)
    ensures ClaimsOf(h, id)[|ClaimsOf(h, id)| - 1] == ClaimRecord(h[i].op.op.now, h[i].result.claim)
    ensures forall k :: i < k < |h| ==> !Claims(h[k], id)
  {
    var n := |h| - 1;
    if Claims(h[n], id) { i := n; } else { i := LastClaimAt(h[..n], id); }
  }

  lemma {:induction false} AckPlaces<V>(h: seq<Event<V>>, id: Uuid)
    ensures AckCount(h, id) > 0 <==> exists i :: 0 <= i < |h| && Acks(h[i], id)
    ensures AckCount(h, id) <= 1 ==> forall i, j :: 0 <= i < j < |h| ==> !(Acks(h[i], id) && Acks(h[j], id))
  {
    if h != [] {
      var n := |h| - 1;
      AckPlaces(h[..n], id);
      assert forall i :: 0 <= i < n ==> h[..n][i] == h[i];
    }
  }

  lemma {:induction false} PublishPlaces<V>(h: seq<Event<V>>, id: Uuid)
    ensures ValueOf(h, id).Some? <==> exists i :: 0 <= i < |h| && Publishes(h[i], id)
  {
    if h != [] {
      var n := |h| - 1;
      PublishPlaces(h[..n], id);
      assert forall i :: 0 <= i < n ==> h[..n][i] == h[i];
    }
  }

  ghost predicate WasPublished<V>(h: seq<Event<V>>, id: Uuid) {
    exists i :: 0 <= i < |h| && Publishes(h[i], id)
  }

  ghost predicate WasAcked<V>(h: seq<Event<V>>, id: Uuid) {
    exists i :: 0 <= i < |h| && Acks(h[i], id)
  }

  ghost predicate Queued<V>(doc: Document<V>, id: Uuid) {
    exists m <- doc.messages :: m.id == id
  }

  /** Every published message is either still queued or acknowledged, never both, and nothing
      else is in the queue. Each is acknowledged at most once. */
  lemma {:induction false} Conservation<V(!new)>(schema: string, h: seq<Event<V>>, id: Uuid)
    requires FromEmpty(schema, h)
    ensures WasPublished(h, id) <==> Queued(After(schema, h), id) || WasAcked(h, id)
    ensures !(Queued(After(schema, h), id) && WasAcked(h, id))
    ensures forall i, j :: 0 <= i < j < |h| ==> !(Acks(h[i], id) && Acks(h[j], id))
    ensures forall m :: m in After(schema, h).messages && m.id == id ==> ValueOf(h, id) == Some(m.value)
  {
    HistoryDeterminesDocument(schema, h);
    AckPlaces(h, id);
    PublishPlaces(h, id);
    assert OrderlyAt(h, id);
    var doc := After(schema, h);
    if Remaining(h, id).Some? {
      assert Remaining(h, id).value in doc.messages;
    }
    forall m | m in doc.messages && m.id == id ensures Remaining(h, id) == Some(m) {}
  }

  /** An identifier is published once, and the value under it is the published one. */
  lemma {:induction false} PublishedOnce<V(!new)>(schema: string, h: seq<Event<V>>, id: Uuid, i: nat)
    requires FromEmpty(schema, h) && i < |h| && Publishes(h[i], id)
    ensures ValueOf(h, id) == Some(h[i].op.op.value)
    ensures forall k :: 0 <= k < |h| && Publishes(h[k], id) ==> k == i
  {
    PublishedUnderDraw(schema, h, id);
    OnlyPublication(h, id, i);
  }

  lemma {:induction false} PublishedUnderDraw<V(!new)>(schema: string, h: seq<Event<V>>, id: Uuid)
    requires FromEmpty(schema, h)
    ensures forall k :: 0 <= k < |h| && Publishes(h[k], id) ==> h[k].draw == id
  {
    forall k | 0 <= k < |h| && Publishes(h[k], id) ensures h[k].draw == id {
      PrefixFromEmpty(schema, h, k);
    }
  }

  lemma {:induction false} OnlyPublication<V>(h: seq<Event<V>>, id: Uuid, i: nat)
    requires i < |h| && Publishes(h[i], id) && forall k :: 0 <= k < |h| && Publishes(h[k], id) ==> k == i
    ensures ValueOf(h, id) == Some(h[i].op.op.value)
  {
    if i < |h| - 1 { OnlyPublication(h[..|h| - 1], id, i); }
  }

  /** An acknowledgement finds the message held by the latest claim before it. */
  lemma {:induction false} AckIsHeld<V(!new)>(schema: string, h: seq<Event<V>>, id: Uuid, j: nat) returns (i: nat)
    requires FromEmpty(schema, h) && j < |h| && Acks(h[j], id)
    ensures i < j && Claims(h[i], id)
    ensures h[i].result.claim.token == h[j].op.op.token
    ensures h[j].op.op.now < h[i].result.claim.expiresAt
    ensures forall k :: i < k < j ==> !Claims(h[k], id)
  {
    PrefixFromEmpty(schema, h, j);
    var m := HeldBeforeAck(h[..j], After(schema, h[..j]), h[j], id);
    i := LatestClaimHolds(h, j, m);
  }

  lemma {:induction false} LatestClaimHolds<V>(h: seq<Event<V>>, j: nat, m: Message<V>) returns (i: nat)
    requires j <= |h| && Remaining(h[..j], m.id) == Some(m) && m.lease.Some?
    ensures i < j && Claims(h[i], m.id)
    ensures m.lease.value == Lease(h[i].result.claim.token, h[i].result.claim.expiresAt)
    ensures forall k :: i < k < j ==> !Claims(h[k], m.id)
  {
    var g := h[..j];
    i := LastClaimAt(g, m.id);
    assert forall k :: 0 <= k < j ==> g[k] == h[k];
  }

  lemma {:induction false} HeldBeforeAck<V(!new)>(g: seq<Event<V>>, doc: Document<V>, e: Event<V>, id: Uuid)
    returns (m: Message<V>)
    requires Holds(g, doc) && Fits(doc, e) && Acks(e, id)
    ensures Remaining(g, id) == Some(m) && Held(m, e.op.op.now, id, e.op.op.token)
  {
    AckRemovesHeldMessage(doc, e.op.op.now, id, e.op.op.token);
    m :| m in doc.messages && Held(m, e.op.op.now, id, e.op.op.token);
  }

  /** An acknowledgement is granted to the latest claim of its message, made earlier with the same
      token, by a clock reading below that claim's deadline. From then on the message is gone
      for good. */
  lemma {:induction false} AckAuthority<V(!new)>(schema: string, h: seq<Event<V>>, id: Uuid, j: nat) returns (i: nat)
    requires FromEmpty(schema, h) && j < |h| && Acks(h[j], id)
    ensures i < j && Claims(h[i], id)
    ensures h[i].result.claim.token == h[j].op.op.token
    ensures h[j].op.op.now < h[i].result.claim.expiresAt
    ensures forall k :: i < k < |h| ==> !Claims(h[k], id)
    ensures forall k :: j < k <= |h| ==> !Queued(After(schema, h[..k]), id)
  {
    i := AckIsHeld(schema, h, id, j);
    forall k | j < k <= |h| ensures !Queued(After(schema, h[..k]), id) {
      GoneAfterAck(schema, h, id, j, k);
    }
    forall k | i < k < |h| ensures !Claims(h[k], id) {
      if k > j { NoClaimAfterAck(schema, h, id, j, k); }
    }
  }

  lemma {:induction false} GoneAfterAck<V(!new)>(schema: string, h: seq<Event<V>>, id: Uuid, j: nat, k: nat)
    requires FromEmpty(schema, h) && j < k <= |h| && Acks(h[j], id)
    ensures !Queued(After(schema, h[..k]), id)
  {
    PrefixFromEmpty(schema, h, k);
    assert Acks(h[..k][j], id);
    Conservation(schema, h[..k], id);
  }

  lemma {:induction false} NoClaimAfterAck<V(!new)>(schema: string, h: seq<Event<V>>, id: Uuid, j: nat, k: nat)
    requires FromEmpty(schema, h) && j < k < |h| && Acks(h[j], id)
    ensures !Claims(h[k], id)
  {
    GoneAfterAck(schema, h, id, j, k);
    PrefixFromEmpty(schema, h, k);
    if h[k].op.op.TryClaim? && h[k].wrote {
      var m := ClaimedMessage(After(schema, h[..k]), h[k]);
    }
  }

  /** Once a message was reclaimed, no earlier token can acknowledge it. */
  lemma {:induction false} ReclaimRevokesToken<V(!new)>(
    schema: string, h: seq<Event<V>>, id: Uuid, i: nat, k: nat, j: nat)
    requires FromEmpty(schema, h) && i < k < j < |h| && Claims(h[i], id) && Claims(h[k], id)
    requires h[j].op.op.Ack? && h[j].op.op.id == id && h[j].op.op.token == h[i].result.claim.token
    ensures h[j].result != Acknowledged
  {
    if h[j].result == Acknowledged {
      var last := AckAuthority(schema, h, id, j);
      LeaseExclusion(schema, h, id, i, last);
      assert false;
    }
  }

  /** A read never finds the document corrupt. */
  lemma {:induction false} NeverCorrupt<V(!new)>(schema: string, h: seq<Event<V>>, i: nat)
    requires FromEmpty(schema, h) && i < |h|
    ensures h[i].result != Failed(Corrupt)
    ensures h[i].op.schema == schema ==> !(h[i].result.Failed? && h[i].result.error.IncompatibleQueue?)
  {
    PrefixFromEmpty(schema, h, i);
    var doc := After(schema, h[..i]);
    ReadableIffSorted(doc, h[i].op.schema);
    NeighboursSuffice(doc.messages, IdOf<V>);
  }

  /** Every reply tells the truth about the queue at its place in the history: a claim gets the available
      message with the least identifier, or there is none; an ack removes exactly a message held
      under its token, and otherwise says which condition failed. */
  lemma {:induction false} RepliesAreTrue<V(!new)>(schema: string, h: seq<Event<V>>, i: nat)
    requires FromEmpty(schema, h) && i < |h| && h[i].op.schema == schema
    ensures ReplyIsTrue(After(schema, h[..i]).messages, h[i])
  {
    PrefixFromEmpty(schema, h, i);
    ReadableIffSorted(After(schema, h[..i]), schema);
    DecisionIsTrue(After(schema, h[..i]), h[i]);
  }

  lemma {:induction false} DecisionIsTrue<V(!new)>(doc: Document<V>, e: Event<V>)
    requires Fits(doc, e) && Sorted(doc) && ReadError(doc, e.op.schema).None?
    ensures ReplyIsTrue(doc.messages, e)
  {
    match e.op.op
    case TryClaim(_, _) => ClaimIsTrue(doc, e);
    case Ack(_, _, _) => AckIsTrue(doc, e);
    case _ =>
  }

  lemma {:induction false} ClaimIsTrue<V(!new)>(doc: Document<V>, e: Event<V>)
    requires Fits(doc, e) && Sorted(doc) && ReadError(doc, e.op.schema).None? && e.op.op.TryClaim?
    ensures ReplyIsTrue(doc.messages, e)
  {
    var now, leaseMillis := e.op.op.now, e.op.op.leaseMillis;
    if Early(e.op).None? {
      assert e.result == ApplyClaim(doc, now, leaseMillis, e.draw).result;
      ClaimTakesOldest(doc, now, leaseMillis, e.draw);
    }
  }

  lemma {:induction false} AckIsTrue<V(!new)>(doc: Document<V>, e: Event<V>)
    requires Fits(doc, e) && Sorted(doc) && ReadError(doc, e.op.schema).None? && e.op.op.Ack?
    ensures ReplyIsTrue(doc.messages, e)
  {
    var now, id, token := e.op.op.now, e.op.op.id, e.op.op.token;
    var o := ApplyAck(doc, now, id, token);
    assert e.result == o.result;
    AckRemovesHeldMessage(doc, now, id, token);
    if o.Put? {
      OneMessagePerId(doc, id);
    }
  }

  lemma {:induction false} OneMessagePerId<V>(doc: Document<V>, id: Uuid)
    requires Sorted(doc)
    ensures forall m, x :: m in doc.messages && x in doc.messages && m.id == id && x.id == id ==> m == x
  {
    forall m, x | m in doc.messages && x in doc.messages && m.id == id && x.id == id ensures m == x {
      var i :| 0 <= i < |doc.messages| && doc.messages[i] == m;
      var j :| 0 <= j < |doc.messages| && doc.messages[j] == x;
      SameIdSamePlace(doc.messages, IdOf<V>, i, j);
    }
  }

  ghost predicate ReplyIsTrue<V>(ms: seq<Message<V>>, e: Event<V>) {
    match e.op.op
    case Publish(_) => e.result == Published(e.draw)
    case Len => e.result == Length(|ms|)
    case Ack(now, id, token) =>
      && (e.result == Acknowledged <==> exists m <- ms :: Held(m, now, id, token))
      && (e.result == NotFound <==> forall m <- ms :: m.id != id)
      && (e.result == LeaseExpired <==> exists m <- ms :: ExpiredUnder(m, now, id, token))
      && (e.result == Acknowledged || e.result == NotFound || e.result == LeaseExpired || e.result == LeaseMismatch)
    case TryClaim(now, leaseMillis) =>
      if leaseMillis == 0 || now + leaseMillis > U64_MAX then e.result == Failed(InvalidLeaseDuration)
      else if e.result == NoneAvailable then forall m <- ms :: !Available(m, now)
      else exists m <- ms :: OldestAvailable(ms, m, now) && GrantOf(m, e, now + leaseMillis)
  }

  predicate ExpiredUnder<V>(m: Message<V>, now: nat, id: Uuid, token: Uuid) {
    m.id == id && m.lease.Some? && m.lease.value.token == token && m.lease.value.expiresAt <= now
  }

  ghost predicate OldestAvailable<V>(ms: seq<Message<V>>, m: Message<V>, now: nat) {
    Available(m, now) && forall other <- ms :: Available(other, now) ==> m.id <= other.id
  }

  /** The next attempt at `m`, or the overflow of its attempt counter. */
  predicate GrantOf<V(==)>(m: Message<V>, e: Event<V>, expiresAt: nat) {
    if m.attempts + 1 > U32_MAX then e.result == Failed(AttemptOverflow)
    else e.result == Claimed(Claim(m.id, m.value, e.draw, m.attempts + 1, expiresAt))
  }

  /** Through a handle for another schema every call is told both schemas, unless its lease is refused first, and
      writes nothing. */
  lemma {:induction false} OtherSchemasAreTold<V(!new)>(schema: string, h: seq<Event<V>>, i: nat)
    requires FromEmpty(schema, h) && i < |h| && h[i].op.schema != schema
    ensures !h[i].wrote
    ensures var op := h[i].op.op;
            h[i].result == if op.TryClaim? && (op.leaseMillis == 0 || op.now + op.leaseMillis > U64_MAX)
                           then Failed(InvalidLeaseDuration)
                           else Failed(IncompatibleQueue(WrongSchema(h[i].op.schema, schema)))
  {
    PrefixFromEmpty(schema, h, i);
    var doc := After(schema, h[..i]);
    BadLeaseIsRefused(doc, h[i].op, h[i].draw);
    if Early(h[i].op).None? {
      var want, reason := Header(FORMAT_VERSION, KIND, h[i].op.schema), WrongSchema(h[i].op.schema, schema);
      assert FirstDifference(reason, doc.header, want);
      UnreadableIsRefused(doc, h[i].op, h[i].draw);
    }
  }

  // --- Runs of any number of clients ---

  /** Whatever the interleaving, the committed calls form such a history, and the stored queue
      is what that history leaves. */
  lemma {:induction false} RunsHaveHistories<V(!new)>(
    schema: string, states: seq<State<Document<V>, Call<V>, QueueResult<V>>>,
    actions: seq<Action<Document<V>, Call<V>>>, n: nat)
    requires Run(Queue<V>(), Empty(schema), states, actions) && n < |states|
    ensures var s := states[n];
            && FromEmpty(schema, s.history)
            && After(schema, s.history) == s.stored.bytes
            && Holds(s.history, s.stored.bytes)
  {
    Linearizable(Queue<V>(), Empty(schema), states, actions, n);
    HistoryDeterminesDocument(schema, states[n].history);
  }

  /** Two workers handed the same message hold it during disjoint windows, with different
      tokens and different attempt numbers. */
  lemma {:induction false} WorkersNeverOverlap<V(!new)>(
    schema: string, states: seq<State<Document<V>, Call<V>, QueueResult<V>>>,
    actions: seq<Action<Document<V>, Call<V>>>, n: nat,
    a: Done<Call<V>, QueueResult<V>>, b: Done<Call<V>, QueueResult<V>>)
    requires Run(Queue<V>(), Empty(schema), states, actions) && n < |states|
    requires a in states[n].done && b in states[n].done && a.call != b.call
    requires a.op.op.TryClaim? && a.reply.Returned? && a.reply.result.Claimed?
    requires b.op.op.TryClaim? && b.reply.Returned? && b.reply.result.Claimed?
    requires a.reply.result.claim.id == b.reply.result.claim.id
    ensures var x, y := a.reply.result.claim, b.reply.result.claim;
            && (x.expiresAt <= b.op.op.now || y.expiresAt <= a.op.op.now)
            && x.token != y.token && x.attempt != y.attempt && x.value == y.value
  {
    RunsHaveHistories(schema, states, actions, n);
    Linearizable(Queue<V>(), Empty(schema), states, actions, n);
    var h := states[n].history;
    assert Explained(h, a) && Explained(h, b);
    var i :| TookEffect(h, a, a.reply.result, i);
    var j :| TookEffect(h, b, b.reply.result, j);
    var id := a.reply.result.claim.id;
    AttemptsCountClaims(schema, h, id, i);
    AttemptsCountClaims(schema, h, id, j);
    if i < j { Exclusive(schema, h, id, i, j); } else { Exclusive(schema, h, id, j, i); }
  }

  lemma {:induction false} Exclusive<V(!new)>(schema: string, h: seq<Event<V>>, id: Uuid, i: nat, j: nat)
    requires FromEmpty(schema, h) && i < j < |h| && Claims(h[i], id) && Claims(h[j], id)
    ensures h[i].result.claim.expiresAt <= h[j].op.op.now
    ensures h[i].result.claim.token != h[j].result.claim.token
    ensures h[i].result.claim.attempt < h[j].result.claim.attempt
  {
    LeaseExclusion(schema, h, id, i, j);
    AttemptsCountClaims(schema, h, id, i);
    AttemptsCountClaims(schema, h, id, j);
    ClaimAt(h, id, i);
    ClaimAt(h, id, j);
    ClaimsInOrder(h, id, i, j);
  }

  /** A publish that reported a conflict was not applied: its identifier never appears. One that
      returned its identifier was, and its message stays until it is acknowledged. */
  lemma {:induction false} PublishOutcomeIsTrue<V(!new)>(
    schema: string, states: seq<State<Document<V>, Call<V>, QueueResult<V>>>,
    actions: seq<Action<Document<V>, Call<V>>>, n: nat, d: Done<Call<V>, QueueResult<V>>)
    requires Run(Queue<V>(), Empty(schema), states, actions) && n < |states|
    requires d in states[n].done && d.op.op.Publish?
    ensures var s := states[n];
            && (d.reply.Conflicted? ==> !Queued(s.stored.bytes, d.draw) && !WasPublished(s.history, d.draw))
            && (d.reply.Returned? && d.reply.result.Published? ==>
                  && d.reply.result.id == d.draw
                  && ValueOf(s.history, d.draw) == Some(d.op.op.value)
                  && (Queued(s.stored.bytes, d.draw) || WasAcked(s.history, d.draw)))
  {
    var s := states[n];
    var h := s.history;
    RunsHaveHistories(schema, states, actions, n);
    Linearizable(Queue<V>(), Empty(schema), states, actions, n);
    Conservation(schema, h, d.draw);
    assert Explained(h, d);
    PublishedUnderDraw(schema, h, d.draw);
    if d.reply.Returned? && d.reply.result.Published? {
      var i :| TookEffect(h, d, d.reply.result, i);
      PrefixFromEmpty(schema, h, i);
      PublishedOnce(schema, h, d.draw, i);
    }
  }

  // --- Draining ---

  /** One round of a lone worker: the reading, lease and token of its claim, and the reading of
      its ack. */
  datatype Round = Round(now: U64, leaseMillis: nat, token: Uuid, ackNow: U64)

  ghost predicate InTime(r: Round) {
    0 < r.leaseMillis && r.now + r.leaseMillis <= U64_MAX && r.ackNow < r.now + r.leaseMillis
  }

  /** The queue after each of `rounds` claimed once and acknowledged what it got, with the claims
      obtained; `None` if some round got nothing or was refused. */
  ghost function Drain<V>(doc: Document<V>, schema: string, rounds: seq<Round>): Option<(Document<V>, seq<Claim<V>>)>
    decreases |rounds|
  {
    if rounds == [] then Some((doc, []))
    else
      var r := rounds[0];
      match Queue<V>().Decide(doc, Call(schema, TryClaim(r.now, r.leaseMillis)), r.token)
      case Put(leased, Claimed(claim)) => (
          match Queue<V>().Decide(leased, Call(schema, Ack(r.ackNow, claim.id, claim.token)), 0)
          case Put(rest, Acknowledged) => (
              match Drain(rest, schema, rounds[1..])
              case Some((end, claims)) => Some((end, [claim] + claims))
              case None => None
            )
          case _ => None
        )
      case _ => None
  }

  /** A claim of a queue whose first message is fresh leases that message. */
  lemma {:induction false} ClaimsFirst<V(!new)>(
    doc: Document<V>, schema: string, r: Round) returns (leased: Document<V>)
    requires doc.header == Header(FORMAT_VERSION, KIND, schema) && Sorted(doc) && InTime(r)
    requires |doc.messages| > 0 && doc.messages[0].lease.None? && doc.messages[0].attempts == 0
    ensures leased == doc.(messages := doc.messages[0 := Leased(doc.messages[0], r)]) && Sorted(leased)
    ensures Queue<V>().Decide(doc, Call(schema, TryClaim(r.now, r.leaseMillis)), r.token)
         == Put(leased, Claimed(FreshClaim(doc.messages[0], r)))
  {
    ReadableIffSorted(doc, schema);
    leased := doc.(messages := doc.messages[0 := Leased(doc.messages[0], r)]);
    UpdateKeepsOrder(doc.messages, IdOf<V>, 0, leased.messages[0]);
    assert FirstAvailable(doc.messages, r.now) == Some(0);
    assert ApplyClaim(doc, r.now, r.leaseMillis, r.token) == Put(leased, Claimed(FreshClaim(doc.messages[0], r)));
  }

  /** An ack in time removes that message. */
  lemma {:induction false} AcksFirst<V(!new)>(leased: Document<V>, schema: string, r: Round, m: Message<V>)
    requires leased.header == Header(FORMAT_VERSION, KIND, schema) && Sorted(leased) && InTime(r)
    requires |leased.messages| > 0 && leased.messages[0] == Leased(m, r)
    ensures Queue<V>().Decide(leased, Call(schema, Ack(r.ackNow, m.id, r.token)), 0)
         == Put(leased.(messages := leased.messages[1..]), Acknowledged)
  {
    ReadableIffSorted(leased, schema);
    assert leased.messages[..0] + leased.messages[1..] == leased.messages[1..];
    assert IndexOf(leased.messages, IdOf<V>, m.id) == Some(0);
  }

  ghost function Leased<V>(m: Message<V>, r: Round): Message<V> {
    Message(m.id, m.value, 1, Some(Lease(r.token, r.now + r.leaseMillis)))
  }

  /** A lone worker empties a queue of n fresh messages in exactly n rounds, getting each message
      once, in identifier order, as attempt 1; then no claim gets anything. */
  lemma {:induction false} DrainsInOrder<V(!new)>(doc: Document<V>, schema: string, rounds: seq<Round>)
    requires doc.header == Header(FORMAT_VERSION, KIND, schema) && Sorted(doc)
    requires forall m <- doc.messages :: m.lease.None? && m.attempts == 0
    requires |rounds| == |doc.messages| && forall r <- rounds :: InTime(r)
    ensures Drain(doc, schema, rounds)
         == Some((Empty(schema), FreshClaims(doc.messages, rounds)))
    ensures forall now: U64, leaseMillis: nat, token: Uuid :: 0 < leaseMillis && now + leaseMillis <= U64_MAX ==>
              Queue<V>().Decide(Drain(doc, schema, rounds).value.0, Call(schema, TryClaim(now, leaseMillis)), token)
              == Keep(NoneAvailable)
    decreases |rounds|
  {
    forall now: U64, leaseMillis: nat, token: Uuid | 0 < leaseMillis && now + leaseMillis <= U64_MAX
      ensures Queue<V>().Decide(Empty<V>(schema), Call(schema, TryClaim(now, leaseMillis)), token)
           == Keep(NoneAvailable)
    {
      NothingAfterDrain<V>(schema, now, leaseMillis, token);
    }
    if rounds == [] {
      assert doc == Empty(schema) && FreshClaims(doc.messages, rounds) == [];
    } else {
      assert rounds[0] in rounds && doc.messages[0] in doc.messages;
      var rest := doc.(messages := doc.messages[1..]);
      TailIsFresh(doc, rounds);
      DrainStep(doc, schema, rounds);
      DrainsInOrder(rest, schema, rounds[1..]);
      FreshClaimsSplit(doc.messages, rounds);
      assert rest.header == doc.header && |rest.messages| == |rounds[1..]|;
    }
  }

  lemma {:induction false} FreshClaimsSplit<V>(ms: seq<Message<V>>, rounds: seq<Round>)
    requires |ms| == |rounds| > 0
    ensures FreshClaims(ms, rounds) == [FreshClaim(ms[0], rounds[0])] + FreshClaims(ms[1..], rounds[1..])
  {
    var all, tail := FreshClaims(ms, rounds), FreshClaims(ms[1..], rounds[1..]);
    forall i | 0 < i < |all| ensures all[i] == tail[i - 1] {
      assert ms[1..][i - 1] == ms[i] && rounds[1..][i - 1] == rounds[i];
    }
    assert all == [all[0]] + tail;
  }

  lemma {:induction false} TailIsFresh<V>(doc: Document<V>, rounds: seq<Round>)
    requires Sorted(doc) && |doc.messages| == |rounds| > 0
    requires forall m <- doc.messages :: m.lease.None? && m.attempts == 0
    requires forall r <- rounds :: InTime(r)
    ensures Sorted(doc.(messages := doc.messages[1..]))
    ensures forall m <- doc.messages[1..] :: m.lease.None? && m.attempts == 0
    ensures forall r <- rounds[1..] :: InTime(r)
  {
    assert forall r <- rounds[1..] :: r in rounds;
    assert forall m <- doc.messages[1..] :: m in doc.messages;
  }

  lemma {:induction false} DrainStep<V(!new)>(doc: Document<V>, schema: string, rounds: seq<Round>)
    requires doc.header == Header(FORMAT_VERSION, KIND, schema) && Sorted(doc)
    requires rounds != [] && InTime(rounds[0])
    requires |doc.messages| > 0 && doc.messages[0].lease.None? && doc.messages[0].attempts == 0
    ensures var later := Drain(doc.(messages := doc.messages[1..]), schema, rounds[1..]);
            later.Some? ==>
              Drain(doc, schema, rounds)
              == Some((later.value.0, [FreshClaim(doc.messages[0], rounds[0])] + later.value.1))
  {
    var leased := ClaimsFirst(doc, schema, rounds[0]);
    AcksFirst(leased, schema, rounds[0], doc.messages[0]);
    assert leased.(messages := leased.messages[1..]) == doc.(messages := doc.messages[1..]);
  }

  /** Attempt 1 of every message of `ms`, in order. */
  ghost function FreshClaims<V>(ms: seq<Message<V>>, rounds: seq<Round>): seq<Claim<V>>
    requires |ms| == |rounds|
  {
    seq(|rounds|, i requires 0 <= i < |rounds| => FreshClaim(ms[i], rounds[i]))
  }

  ghost function FreshClaim<V>(m: Message<V>, r: Round): Claim<V> {
    Claim(m.id, m.value, r.token, 1, r.now + r.leaseMillis)
  }

  /** From the emptied queue no claim gets anything. */
  lemma {:induction false} NothingAfterDrain<V(!new)>(schema: string, now: U64, leaseMillis: nat, token: Uuid)
    requires 0 < leaseMillis && now + leaseMillis <= U64_MAX
    ensures Queue<V>().Decide(Empty<V>(schema), Call(schema, TryClaim(now, leaseMillis)), token) == Keep(NoneAvailable)
  {
  }
}
