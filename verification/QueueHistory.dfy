/** What every history of committed queue calls looks like, and how the stored document is
    determined by it. Clock readings are arbitrary throughout. */
module QueueHistory {
  import opened Prelude
  import opened CasProtocol
  import opened Metadata
  import opened QueueModel

  type Event<+V> = Entry<Call<V>, QueueResult<V>>

  datatype ClaimRecord<+V> = ClaimRecord(now: nat, claim: Claim<V>)

  // --- What the history says about one identifier ---

  predicate Publishes<V>(e: Event<V>, id: Uuid) {
    e.result.Published? && e.result.id == id && e.op.op.Publish?
  }

  predicate Claims<V>(e: Event<V>, id: Uuid) {
    e.result.Claimed? && e.result.claim.id == id && e.op.op.TryClaim?
  }

  predicate Acks<V>(e: Event<V>, id: Uuid) {
    e.result.Acknowledged? && e.op.op.Ack? && e.op.op.id == id
  }

  /** The value published under `id`. */
  ghost function ValueOf<V>(h: seq<Event<V>>, id: Uuid): Option<V> {
    if h == [] then None
    else if Publishes(h[|h| - 1], id) then Some(h[|h| - 1].op.op.value)
    else ValueOf(h[..|h| - 1], id)
  }

  /** The claims of `id`, in commit order. */
  ghost function ClaimsOf<V>(h: seq<Event<V>>, id: Uuid): seq<ClaimRecord<V>> {
    if h == [] then []
    else
      var e := h[|h| - 1];
      ClaimsOf(h[..|h| - 1], id) + if Claims(e, id) then [ClaimRecord(e.op.op.now, e.result.claim)] else []
  }

  ghost function AckCount<V>(h: seq<Event<V>>, id: Uuid): nat {
    if h == [] then 0 else AckCount(h[..|h| - 1], id) + if Acks(h[|h| - 1], id) then 1 else 0
  }

  ghost function LastLease<V>(cs: seq<ClaimRecord<V>>): Option<Lease> {
    if cs == [] then None else Some(Lease(cs[|cs| - 1].claim.token, cs[|cs| - 1].claim.expiresAt))
  }

  /** The message the history leaves in the queue under `id`, if any. */
  ghost function Remaining<V>(h: seq<Event<V>>, id: Uuid): Option<Message<V>> {
    if ValueOf(h, id).None? || AckCount(h, id) > 0 then None
    else
      var cs := ClaimsOf(h, id);
      Some(Message(id, ValueOf(h, id).value, |cs|, LastLease(cs)))
  }

  // --- The invariant of histories ---

  /** The claims of one message: numbered 1, 2, 3, ..., all carrying `value`, with lease windows
      one strictly after the other. */
  ghost predicate Chain<V>(cs: seq<ClaimRecord<V>>, id: Uuid, value: V) {
    && |cs| <= U32_MAX
    && (forall k :: 0 <= k < |cs| ==>
                      && cs[k].claim.id == id
                      && cs[k].claim.attempt == k + 1
                      && cs[k].claim.value == value
                      && cs[k].now < cs[k].claim.expiresAt <= U64_MAX)
    && (forall j, k :: 0 <= j < k < |cs| ==> cs[j].claim.expiresAt <= cs[k].now)
    && (forall j, k :: 0 <= j < k < |cs| ==> cs[j].claim.token != cs[k].claim.token)
  }

  ghost predicate Drawn<V>(h: seq<Event<V>>, id: Uuid) {
    exists i :: 0 <= i < |h| && h[i].draw == id
  }

  /** The document is exactly what the history leaves. */
  ghost predicate Holds<V(!new)>(h: seq<Event<V>>, doc: Document<V>) {
    && Sorted(doc)
    && forall m: Message<V> :: m in doc.messages <==> Remaining(h, m.id) == Some(m)
  }

  ghost predicate Orderly<V>(h: seq<Event<V>>) {
    forall id: Uuid :: OrderlyAt(h, id)
  }

  ghost predicate OrderlyAt<V>(h: seq<Event<V>>, id: Uuid) {
    var cs := ClaimsOf(h, id);
    && AckCount(h, id) <= 1
    && TokensDrawn(h, cs)
    && match ValueOf(h, id)
       case None => cs == [] && AckCount(h, id) == 0
       case Some(value) => Drawn(h, id) && Chain(cs, id, value)
  }

  ghost predicate TokensDrawn<V>(h: seq<Event<V>>, cs: seq<ClaimRecord<V>>) {
    forall k :: 0 <= k < |cs| ==> Drawn(h, cs[k].claim.token)
  }

  ghost predicate FromEmpty<V>(schema: string, h: seq<Event<V>>) {
    Legal(Queue<V>(), Empty(schema), h) && DistinctDraws(h)
  }

  ghost function After<V>(schema: string, h: seq<Event<V>>): Document<V> {
    DocAfter(Queue<V>(), Empty(schema), h)
  }

  // --- One more event ---

  /** What one event can be, given the document it met. */
  ghost predicate Fits<V>(doc: Document<V>, e: Event<V>) {
    var o := Queue<V>().Decide(doc, e.op, e.draw);
    e.result == o.result && e.wrote == o.Put?
  }

  lemma {:induction false} LastEvent<V>(h: seq<Event<V>>, e: Event<V>, id: Uuid)
    ensures ValueOf(h + [e], id) == if Publishes(e, id) then Some(e.op.op.value) else ValueOf(h, id)
    ensures ClaimsOf(h + [e], id)
         == ClaimsOf(h, id) + if Claims(e, id) then [ClaimRecord(e.op.op.now, e.result.claim)] else []
    ensures AckCount(h + [e], id) == AckCount(h, id) + if Acks(e, id) then 1 else 0
    ensures forall d :: Drawn(h, d) ==> Drawn(h + [e], d)
    ensures Drawn(h + [e], e.draw)
  {
    var g := h + [e];
    assert g[..|h|] == h && g[|h|] == e;
    forall d | Drawn(h, d) ensures Drawn(g, d) {
      var i :| 0 <= i < |h| && h[i].draw == d;
      assert g[i].draw == d;
    }
  }

  /** Only a write is recorded as a publication, a claim or an acknowledgement. */
  lemma {:induction false} KeepsAreUnrecorded<V>(doc: Document<V>, e: Event<V>, id: Uuid)
    requires Fits(doc, e) && !e.wrote
    ensures !Publishes(e, id) && !Claims(e, id) && !Acks(e, id)
    ensures Queue<V>().NextDoc(doc, e.op, e.draw) == doc
  {
  }

  lemma {:induction false} PublishIsRecorded<V>(doc: Document<V>, e: Event<V>, id: Uuid)
    requires Fits(doc, e) && e.wrote && e.op.op.Publish?
    ensures Publishes(e, id) <==> id == e.draw
    ensures !Claims(e, id) && !Acks(e, id)
    ensures Queue<V>().NextDoc(doc, e.op, e.draw) == ApplyPublish(doc, e.op.op.value, e.draw).doc
  {
  }

  /** An event that records nothing about `id` leaves its record alone. */
  lemma {:induction false} Unrecorded<V>(h: seq<Event<V>>, e: Event<V>, id: Uuid)
    requires !Publishes(e, id) && !Claims(e, id) && !Acks(e, id)
    ensures Remaining(h + [e], id) == Remaining(h, id)
    ensures OrderlyAt(h, id) ==> OrderlyAt(h + [e], id)
  {
    LastEvent(h, e, id);
  }

  lemma {:induction false} KeepIsSilent<V(!new)>(h: seq<Event<V>>, doc: Document<V>, e: Event<V>)
    requires Holds(h, doc) && Orderly(h) && Fits(doc, e) && !e.wrote
    ensures Holds(h + [e], doc) && Orderly(h + [e])
  {
    forall id: Uuid ensures Remaining(h + [e], id) == Remaining(h, id) && OrderlyAt(h + [e], id) {
      KeepsAreUnrecorded(doc, e, id);
      assert OrderlyAt(h, id);
      Unrecorded(h, e, id);
    }
  }

  /** A publication opens the record of a new identifier. */
  lemma {:induction false} PublishOpens<V>(h: seq<Event<V>>, e: Event<V>, id: Uuid)
    requires OrderlyAt(h, id) && !Drawn(h, id) && e.draw == id
    requires Publishes(e, id) && !Claims(e, id) && !Acks(e, id)
    ensures Remaining(h + [e], id) == Some(Message(id, e.op.op.value, 0, None))
    ensures OrderlyAt(h + [e], id)
  {
    LastEvent(h, e, id);
  }

  lemma {:induction false} PublishRecords<V(!new)>(h: seq<Event<V>>, e: Event<V>, id: Uuid)
    requires OrderlyAt(h, id) && (e.draw == id ==> !Drawn(h, id))
    requires e.op.op.Publish? && (Publishes(e, id) <==> id == e.draw) && !Claims(e, id) && !Acks(e, id)
    ensures OrderlyAt(h + [e], id)
    ensures Remaining(h + [e], id)
         == if id == e.draw then Some(Message(id, e.op.op.value, 0, None)) else Remaining(h, id)
  {
    if id == e.draw { PublishOpens(h, e, id); } else { Unrecorded(h, e, id); }
  }

  lemma {:induction false} PublishRecordsAll<V(!new)>(h: seq<Event<V>>, doc: Document<V>, e: Event<V>)
    requires Orderly(h) && !Drawn(h, e.draw)
    requires Fits(doc, e) && e.wrote && e.op.op.Publish?
    ensures Orderly(h + [e])
    ensures forall id: Uuid :: Remaining(h + [e], id)
                            == if id == e.draw then Some(Message(id, e.op.op.value, 0, None)) else Remaining(h, id)
  {
    forall id: Uuid
      ensures OrderlyAt(h + [e], id)
      ensures Remaining(h + [e], id)
           == if id == e.draw then Some(Message(id, e.op.op.value, 0, None)) else Remaining(h, id)
    {
      PublishIsRecorded(doc, e, id);
      assert OrderlyAt(h, id);
      PublishRecords(h, e, id);
    }
  }

  lemma {:induction false} PublishExtends<V(!new)>(h: seq<Event<V>>, doc: Document<V>, e: Event<V>)
    requires Holds(h, doc) && Orderly(h) && !Drawn(h, e.draw)
    requires Fits(doc, e) && e.wrote && e.op.op.Publish?
    ensures var after := Queue<V>().NextDoc(doc, e.op, e.draw); Holds(h + [e], after) && Orderly(h + [e])
  {
    PublishIsRecorded(doc, e, e.draw);
    PublishRecordsAll(h, doc, e);
    PublishHolds(h, doc, e, ApplyPublish(doc, e.op.op.value, e.draw).doc);
  }

  lemma {:induction false} PublishHolds<V(!new)>(h: seq<Event<V>>, doc: Document<V>, e: Event<V>, after: Document<V>)
    requires Holds(h, doc) && Orderly(h) && !Drawn(h, e.draw) && e.op.op.Publish?
    requires after == ApplyPublish(doc, e.op.op.value, e.draw).doc
    requires forall id: Uuid :: Remaining(h + [e], id)
                             == if id == e.draw then Some(Message(id, e.op.op.value, 0, None)) else Remaining(h, id)
    ensures Holds(h + [e], after)
  {
    NotQueuedYet(h, doc, e.draw);
    PublishAdds(doc, e.op.op.value, e.draw);
    PublishedHolds(h, doc, e, after, Message(e.draw, e.op.op.value, 0, None));
  }

  lemma {:induction false} NotQueuedYet<V(!new)>(h: seq<Event<V>>, doc: Document<V>, id: Uuid)
    requires Holds(h, doc) && Orderly(h) && !Drawn(h, id)
    ensures forall m <- doc.messages :: m.id != id
  {
    assert OrderlyAt(h, id);
    forall m | m in doc.messages ensures m.id != id { assert Remaining(h, m.id) == Some(m); }
  }

  lemma {:induction false} PublishedHolds<V(!new)>(
    h: seq<Event<V>>, doc: Document<V>, e: Event<V>, after: Document<V>, added: Message<V>)
    requires Holds(h, doc) && Sorted(after)
    requires forall m <- doc.messages :: m.id != added.id
    requires forall m :: m in after.messages <==> m in doc.messages || m == added
    requires Remaining(h + [e], added.id) == Some(added)
    requires forall id: Uuid :: id != added.id ==> Remaining(h + [e], id) == Remaining(h, id)
    ensures Holds(h + [e], after)
  {
    forall m: Message<V> ensures m in after.messages <==> Remaining(h + [e], m.id) == Some(m) {
      if m.id != added.id { assert m in doc.messages <==> Remaining(h, m.id) == Some(m); }
    }
  }

  /** The message a committed claim took. */
  lemma {:induction false} ClaimedMessage<V(!new)>(doc: Document<V>, e: Event<V>) returns (m: Message<V>)
    requires Sorted(doc) && Fits(doc, e) && e.wrote && e.op.op.TryClaim?
    ensures m in doc.messages && Available(m, e.op.op.now) && m.attempts + 1 <= U32_MAX
    ensures e.op.op.now < e.op.op.now + e.op.op.leaseMillis <= U64_MAX
    ensures ClaimedOnly(doc, Queue<V>().Decide(doc, e.op, e.draw), m, e.op.op.now + e.op.op.leaseMillis, e.draw)
  {
    ClaimTakesOldest(doc, e.op.op.now, e.op.op.leaseMillis, e.draw);
    var o := ApplyClaim(doc, e.op.op.now, e.op.op.leaseMillis, e.draw);
    assert o == Queue<V>().Decide(doc, e.op, e.draw);
    m :| m in doc.messages && Available(m, e.op.op.now) && m.attempts + 1 <= U32_MAX
         && ClaimedOnly(doc, o, m, e.op.op.now + e.op.op.leaseMillis, e.draw);
  }

  lemma {:induction false} ClaimExtends<V(!new)>(h: seq<Event<V>>, doc: Document<V>, e: Event<V>)
    requires Holds(h, doc) && Orderly(h) && !Drawn(h, e.draw)
    requires Fits(doc, e) && e.wrote && e.op.op.TryClaim?
    ensures var after := Queue<V>().NextDoc(doc, e.op, e.draw); Holds(h + [e], after) && Orderly(h + [e])
  {
    var m := ClaimedMessage(doc, e);
    ClaimOf(h, doc, e, m, Queue<V>().Decide(doc, e.op, e.draw));
  }

  lemma {:induction false} ClaimOf<V(!new)>(
    h: seq<Event<V>>, doc: Document<V>, e: Event<V>, m: Message<V>, o: Outcome<Document<V>, QueueResult<V>>)
    requires Holds(h, doc) && Orderly(h) && !Drawn(h, e.draw)
    requires m in doc.messages && e.op.op.TryClaim? && e.result == o.result
    requires Available(m, e.op.op.now) && m.attempts + 1 <= U32_MAX
    requires e.op.op.now < e.op.op.now + e.op.op.leaseMillis <= U64_MAX
    requires ClaimedOnly(doc, o, m, e.op.op.now + e.op.op.leaseMillis, e.draw)
    ensures Holds(h + [e], o.doc) && Orderly(h + [e])
  {
    forall other: Uuid ensures OrderlyAt(h + [e], other) {
      assert OrderlyAt(h, other);
      ClaimOfKeepsOrder(h, e, m, other);
    }
    forall x: Message<V> ensures x in o.doc.messages <==> Remaining(h + [e], x.id) == Some(x) {
      ClaimOfRemaining(h, e, m, x.id);
    }
  }

  lemma {:induction false} ClaimOfRemaining<V(!new)>(h: seq<Event<V>>, e: Event<V>, m: Message<V>, id: Uuid)
    requires Remaining(h, m.id) == Some(m) && Claims(e, m.id)
    ensures Remaining(h + [e], id) ==
            if id == m.id
            then Some(Message(m.id, m.value, m.attempts + 1,
                              Some(Lease(e.result.claim.token, e.result.claim.expiresAt))))
            else Remaining(h, id)
  {
    LastEvent(h, e, id);
  }

  lemma {:induction false} ClaimOfKeepsOrder<V(!new)>(h: seq<Event<V>>, e: Event<V>, m: Message<V>, id: Uuid)
    requires OrderlyAt(h, id) && Remaining(h, m.id) == Some(m) && !Drawn(h, e.draw)
    requires Claims(e, m.id) && e.op.op.now < e.result.claim.expiresAt <= U64_MAX
    requires Available(m, e.op.op.now) && m.attempts + 1 <= U32_MAX
    requires e.result.claim == Claim(m.id, m.value, e.draw, m.attempts + 1, e.result.claim.expiresAt)
    ensures OrderlyAt(h + [e], id)
  {
    if id != m.id {
      Unrecorded(h, e, id);
    } else {
      LastEvent(h, e, id);
      ChainGrows(h, m, e.op.op.now, e.result.claim);
      TokensStayDrawn(h, e, ClaimsOf(h, id), ClaimRecord(e.op.op.now, e.result.claim));
    }
  }

  lemma {:induction false} TokensStayDrawn<V>(h: seq<Event<V>>, e: Event<V>, cs: seq<ClaimRecord<V>>, c: ClaimRecord<V>)
    requires TokensDrawn(h, cs) && c.claim.token == e.draw
    ensures TokensDrawn(h + [e], cs + [c])
  {
    forall k | 0 <= k < |cs| + 1 ensures Drawn(h + [e], (cs + [c])[k].claim.token) {
      if k < |cs| {
        var i :| 0 <= i < |h| && h[i].draw == cs[k].claim.token;
        assert (h + [e])[i] == h[i];
      } else {
        assert (h + [e])[|h|] == e;
      }
    }
  }

  /** A claim at `now` of an available message continues its chain. */
  lemma {:induction false} ChainGrows<V>(h: seq<Event<V>>, m: Message<V>, now: nat, claim: Claim<V>)
    requires OrderlyAt(h, m.id) && Remaining(h, m.id) == Some(m)
    requires Available(m, now) && m.attempts + 1 <= U32_MAX
    requires claim.id == m.id && claim.value == m.value && claim.attempt == m.attempts + 1
    requires now < claim.expiresAt <= U64_MAX && !Drawn(h, claim.token) && TokensDrawn(h, ClaimsOf(h, m.id))
    ensures Chain(ClaimsOf(h, m.id) + [ClaimRecord(now, claim)], m.id, m.value)
  {
    var cs := ClaimsOf(h, m.id);
    if cs != [] {
      assert cs[|cs| - 1].claim.expiresAt <= now;
      forall j | 0 <= j < |cs| ensures cs[j].claim.expiresAt <= now {
        if j < |cs| - 1 { assert cs[j].claim.expiresAt <= cs[|cs| - 1].now; }
      }
    }
  }

  lemma {:induction false} AckExtends<V(!new)>(h: seq<Event<V>>, doc: Document<V>, e: Event<V>)
    requires Holds(h, doc) && Orderly(h)
    requires Fits(doc, e) && e.wrote && e.op.op.Ack?
    ensures var after := Queue<V>().NextDoc(doc, e.op, e.draw); Holds(h + [e], after) && Orderly(h + [e])
  {
    var after := AckedDocument(doc, e);
    var m :| m in doc.messages && m.id == e.op.op.id;
    assert Remaining(h, m.id) == Some(m);
    forall other: Uuid ensures OrderlyAt(h + [e], other) {
      assert OrderlyAt(h, other);
      AckOf(h, e, other);
    }
    forall x: Message<V> ensures x in after.messages <==> Remaining(h + [e], x.id) == Some(x) {
      AckOf(h, e, x.id);
    }
  }

  /** An ack that writes removes its message, which was there. */
  lemma {:induction false} AckedDocument<V(!new)>(doc: Document<V>, e: Event<V>) returns (after: Document<V>)
    requires Sorted(doc) && Fits(doc, e) && e.wrote && e.op.op.Ack?
    ensures after == Queue<V>().NextDoc(doc, e.op, e.draw) && Sorted(after) && Acks(e, e.op.op.id)
    ensures exists m <- doc.messages :: m.id == e.op.op.id
    ensures forall x :: x in after.messages <==> x in doc.messages && x.id != e.op.op.id
  {
    AckRemovesHeldMessage(doc, e.op.op.now, e.op.op.id, e.op.op.token);
    after := Queue<V>().NextDoc(doc, e.op, e.draw);
  }

  /** An ack ends the record of its message and leaves every other record alone. */
  lemma {:induction false} AckOf<V>(h: seq<Event<V>>, e: Event<V>, id: Uuid)
    requires e.op.op.Ack? && Acks(e, e.op.op.id) && OrderlyAt(h, id)
    requires id == e.op.op.id ==> Remaining(h, id).Some?
    ensures OrderlyAt(h + [e], id)
    ensures Remaining(h + [e], id) == if id == e.op.op.id then None else Remaining(h, id)
  {
    LastEvent(h, e, id);
  }

  lemma {:induction false} Extends<V(!new)>(h: seq<Event<V>>, doc: Document<V>, e: Event<V>)
    requires Holds(h, doc) && Orderly(h) && Fits(doc, e) && !Drawn(h, e.draw)
    ensures var after := Queue<V>().NextDoc(doc, e.op, e.draw);
            Holds(h + [e], after) && Orderly(h + [e]) && after.header == doc.header
  {
    if !e.wrote {
      KeepIsSilent(h, doc, e);
    } else {
      match e.op.op
      case Publish(_) => PublishExtends(h, doc, e);
      case TryClaim(_, _) => ClaimExtends(h, doc, e);
      case Ack(_, _, _) => AckExtends(h, doc, e);
    }
  }

  /** The document after any history is exactly what the history leaves: published, not acknowledged
      messages, each with as many attempts as committed claims and with the last claim's lease. */
  lemma {:induction false} HistoryDeterminesDocument<V(!new)>(schema: string, h: seq<Event<V>>)
    requires FromEmpty(schema, h)
    ensures Holds(h, After(schema, h)) && Orderly(h)
    ensures After<V>(schema, h).header == Header(FORMAT_VERSION, KIND, schema)
  {
    if h == [] {
      NothingYet(schema, h);
    } else {
      var n := |h| - 1;
      var g, e := h[..n], h[n];
      LegalPrefix(Queue<V>(), Empty(schema), h, n);
      HistoryDeterminesDocument(schema, g);
      LastFits(schema, h);
      Extends(g, After(schema, g), e);
      assert g + [e] == h;
    }
  }

  lemma {:induction false} NothingYet<V(!new)>(schema: string, h: seq<Event<V>>)
    requires h == []
    ensures Holds(h, Empty(schema)) && Orderly(h)
  {
  }

  lemma {:induction false} LastFits<V>(schema: string, h: seq<Event<V>>)
    requires FromEmpty(schema, h) && h != []
    ensures var n := |h| - 1;
            && Fits(After(schema, h[..n]), h[n]) && !Drawn(h[..n], h[n].draw)
            && After(schema, h) == Queue<V>().NextDoc(After(schema, h[..n]), h[n].op, h[n].draw)
  {
    assert LegalAt(Queue<V>(), Empty(schema), h, |h| - 1);
  }

  lemma {:induction false} PrefixFromEmpty<V(!new)>(schema: string, h: seq<Event<V>>, n: nat)
    requires FromEmpty(schema, h) && n <= |h|
    ensures FromEmpty(schema, h[..n])
    ensures Holds(h[..n], After(schema, h[..n])) && Orderly(h[..n])
    ensures After<V>(schema, h[..n]).header == Header(FORMAT_VERSION, KIND, schema)
    ensures n < |h| ==> Fits(After(schema, h[..n]), h[n]) && !Drawn(h[..n], h[n].draw)
  {
    LegalPrefix(Queue<V>(), Empty(schema), h, n);
    HistoryDeterminesDocument(schema, h[..n]);
    assert n < |h| ==> LegalAt(Queue<V>(), Empty(schema), h, n);
  }

  // --- Reading positions off the records ---

  /** What is recorded about `id` only grows along the history. */
  lemma {:induction false} RecordsGrow<V>(h: seq<Event<V>>, id: Uuid, n: nat)
    requires n <= |h|
    ensures ClaimsOf(h[..n], id) <= ClaimsOf(h, id)
    ensures AckCount(h[..n], id) <= AckCount(h, id)
    ensures ValueOf(h[..n], id).Some? ==> ValueOf(h, id).Some?
  {
    if n < |h| {
      var g := h[..|h| - 1];
      assert g[..n] == h[..n] && h == g + [h[|h| - 1]];
      RecordsGrow(g, id, n);
    } else {
      assert h[..n] == h;
    }
  }

  /** A claim at place `i` is the next record of its message. */
  lemma {:induction false} ClaimAt<V>(h: seq<Event<V>>, id: Uuid, i: nat)
    requires i < |h| && Claims(h[i], id)
    ensures var k := |ClaimsOf(h[..i], id)|;
            k < |ClaimsOf(h, id)| && ClaimsOf(h, id)[k] == ClaimRecord(h[i].op.op.now, h[i].result.claim)
    ensures |ClaimsOf(h[..i + 1], id)| == |ClaimsOf(h[..i], id)| + 1
  {
    assert h[..i + 1] == h[..i] + [h[i]];
    LastEvent(h[..i], h[i], id);
    RecordsGrow(h, id, i + 1);
  }

  /** Of two claims of one message, the earlier one is the earlier record. */
  lemma {:induction false} ClaimsInOrder<V>(h: seq<Event<V>>, id: Uuid, i: nat, j: nat)
    requires i < j < |h| && Claims(h[i], id) && Claims(h[j], id)
    ensures |ClaimsOf(h[..i], id)| < |ClaimsOf(h[..j], id)|
  {
    ClaimAt(h, id, i);
    assert h[..j][..i + 1] == h[..i + 1];
    RecordsGrow(h[..j], id, i + 1);
  }
}
