/** What the order of publication, and the clocks of different workers, have to do with the
    messages handed out. */
module QueueOrder {
  import opened Prelude
  import opened CasProtocol
  import opened Metadata
  import opened SortedSearch
  import opened QueueModel
  import opened QueueHistory
  import opened QueueSafety

  // --- Claiming in the order of publication, whatever happened before ---

  ghost predicate PublishedBefore<V>(h: seq<Event<V>>, a: Uuid, b: Uuid) {
    exists i, j :: 0 <= i < j < |h| && Publishes(h[i], a) && Publishes(h[j], b)
  }

  /** Later publications carry greater identifiers. */
  ghost predicate IdentifiersIncrease<V>(h: seq<Event<V>>) {
    forall a: Uuid, b: Uuid :: PublishedBefore(h, a, b) ==> a < b
  }

  lemma {:induction false} EitherFirst<V(!new)>(schema: string, h: seq<Event<V>>, a: Uuid, b: Uuid)
    requires FromEmpty(schema, h) && a != b
    requires Queued(After(schema, h), a) && Queued(After(schema, h), b)
    ensures PublishedBefore(h, a, b) <==> !PublishedBefore(h, b, a)
  {
    Conservation(schema, h, a);
    Conservation(schema, h, b);
    var i :| 0 <= i < |h| && Publishes(h[i], a);
    var j :| 0 <= j < |h| && Publishes(h[j], b);
    PublishedOnce(schema, h, a, i);
    PublishedOnce(schema, h, b, j);
  }

  /** With identifiers that increase in the order of publication, every claim of any history, between
      whatever publications, claims, expiries and acks, gets the earliest published of all messages
      available at its reading. */
  lemma {:induction false} ClaimsTakeEarliestPublished<V(!new)>(schema: string, h: seq<Event<V>>, k: nat, id: Uuid)
    requires FromEmpty(schema, h) && k < |h| && Claims(h[k], id) && IdentifiersIncrease(h[..k])
    ensures exists m <- After(schema, h[..k]).messages :: m.id == id && Available(m, h[k].op.op.now)
    ensures forall m <- After(schema, h[..k]).messages ::
              Available(m, h[k].op.op.now) && m.id != id ==> PublishedBefore(h[..k], id, m.id)
  {
    var g := h[..k];
    var doc := After(schema, g);
    PrefixFromEmpty(schema, h, k);
    var taken := LeastIsTaken(doc, h[k], id);
    forall m | m in doc.messages && Available(m, h[k].op.op.now) && m.id != id ensures PublishedBefore(g, id, m.id) {
      EitherFirst(schema, g, id, m.id);
    }
  }

  lemma {:induction false} LeastIsTaken<V(!new)>(doc: Document<V>, e: Event<V>, id: Uuid) returns (taken: Message<V>)
    requires Sorted(doc) && Fits(doc, e) && Claims(e, id)
    ensures taken in doc.messages && taken.id == id && OldestAvailable(doc.messages, taken, e.op.op.now)
  {
    assert ReadError(doc, e.op.schema).None?;
    ClaimIsTrue(doc, e);
    taken :| taken in doc.messages && OldestAvailable(doc.messages, taken, e.op.op.now)
             && GrantOf(taken, e, e.op.op.now + e.op.op.leaseMillis);
  }

  // --- Claiming everything there is, without acks ---

  /** The queue after one claim for each of `tokens`, all at the reading `now`, with the claims obtained;
      `None` if some claim got nothing or was refused. */
  ghost function ClaimAll<V>(doc: Document<V>, schema: string, now: U64, leaseMillis: nat, tokens: seq<Uuid>)
    : Option<(Document<V>, seq<Claim<V>>)>
    decreases |tokens|
  {
    if tokens == [] then Some((doc, []))
    else
      match Queue<V>().Decide(doc, Call(schema, TryClaim(now, leaseMillis)), tokens[0])
      case Put(leased, Claimed(claim)) => (
          match ClaimAll(leased, schema, now, leaseMillis, tokens[1..])
          case Some((end, claims)) => Some((end, [claim] + claims))
          case None => None
        )
      case _ => None
  }

  ghost function AvailableOf<V>(ms: seq<Message<V>>, now: nat): seq<Message<V>> {
    if ms == [] then []
    else if Available(ms[0], now) then [ms[0]] + AvailableOf(ms[1..], now)
    else AvailableOf(ms[1..], now)
  }

  lemma {:induction false} AvailableAreThere<V(!new)>(ms: seq<Message<V>>, now: nat)
    ensures forall m :: m in AvailableOf(ms, now) <==> m in ms && Available(m, now)
    ensures FirstAvailable(ms, now).None? <==> AvailableOf(ms, now) == []
  {
    if ms != [] {
      AvailableAreThere(ms[1..], now);
      assert ms == [ms[0]] + ms[1..];
    }
  }

  lemma {:induction false} AvailableKeepOrder<V(!new)>(ms: seq<Message<V>>, now: nat)
    requires Increasing(ms, IdOf<V>)
    ensures Increasing(AvailableOf(ms, now), IdOf<V>)
  {
    if ms != [] {
      assert Increasing(ms[1..], IdOf<V>);
      AvailableKeepOrder(ms[1..], now);
      AvailableAreThere(ms[1..], now);
      forall m | m in AvailableOf(ms[1..], now) ensures m in ms[1..] {}
      if Available(ms[0], now) { LeastInFront(ms, AvailableOf(ms[1..], now)); }
    }
  }

  lemma {:induction false} LeastInFront<V>(ms: seq<Message<V>>, some: seq<Message<V>>)
    requires ms != [] && Increasing(ms, IdOf<V>) && Increasing(some, IdOf<V>) && forall m <- some :: m in ms[1..]
    ensures Increasing([ms[0]] + some, IdOf<V>)
  {
    forall k | 0 <= k < |some| ensures IdOf(ms[0]) < IdOf(some[k]) {
      assert some[k] in ms[1..];
      var i :| 0 <= i < |ms| - 1 && ms[i + 1] == some[k];
    }
  }

  /** Leasing the first available message leaves the others available, in the same order. */
  lemma {:induction false} LeasingTakesFirst<V>(ms: seq<Message<V>>, now: nat, i: nat, leased: Message<V>)
    requires FirstAvailable(ms, now) == Some(i) && !Available(leased, now)
    ensures AvailableOf(ms, now) == [ms[i]] + AvailableOf(ms[i := leased], now)
  {
    var us := ms[i := leased];
    if i == 0 {
      assert us[1..] == ms[1..];
    } else {
      LeasingTakesFirst(ms[1..], now, i - 1, leased);
      assert us[0] == ms[0] && us[1..] == ms[1..][i - 1 := leased];
    }
  }

  ghost function NextClaim<V>(m: Message<V>, token: Uuid, expiresAt: nat): Claim<V> {
    Claim(m.id, m.value, token, m.attempts + 1, expiresAt)
  }

  /** All the messages available at a reading can be claimed at it, one by one in identifier order, and
      then nothing is left to claim. */
  lemma {:induction false} ClaimsAllAvailable<V(!new)>(
    doc: Document<V>, schema: string, now: U64, leaseMillis: nat, tokens: seq<Uuid>) returns (claims: seq<Claim<V>>)
    requires doc.header == Header(FORMAT_VERSION, KIND, schema) && Sorted(doc)
    requires 0 < leaseMillis && now + leaseMillis <= U64_MAX && |tokens| == |AvailableOf(doc.messages, now)|
    requires forall m <- AvailableOf(doc.messages, now) :: m.attempts < U32_MAX
    ensures var d := ClaimAll(doc, schema, now, leaseMillis, tokens);
            d.Some? && d.value.1 == claims && FirstAvailable(d.value.0.messages, now).None?
    ensures var available := AvailableOf(doc.messages, now);
            |claims| == |available|
            && forall k :: 0 <= k < |claims| ==> claims[k] == NextClaim(available[k], tokens[k], now + leaseMillis)
    decreases |tokens|
  {
    AvailableAreThere(doc.messages, now);
    claims := [];
    if tokens != [] {
      var leased, i := ClaimOne(doc, schema, now, leaseMillis, tokens[0]);
      var m := doc.messages[i];
      var rest := ClaimsAllAvailable(leased, schema, now, leaseMillis, tokens[1..]);
      claims := [NextClaim(m, tokens[0], now + leaseMillis)] + rest;
    }
  }

  lemma {:induction false} ClaimOne<V(!new)>(doc: Document<V>, schema: string, now: U64, leaseMillis: nat, token: Uuid)
    returns (leased: Document<V>, i: nat)
    requires doc.header == Header(FORMAT_VERSION, KIND, schema) && Sorted(doc)
    requires 0 < leaseMillis && now + leaseMillis <= U64_MAX && FirstAvailable(doc.messages, now).Some?
    requires forall m <- AvailableOf(doc.messages, now) :: m.attempts < U32_MAX
    ensures i < |doc.messages| && leased.header == doc.header && Sorted(leased)
    ensures AvailableOf(doc.messages, now) == [doc.messages[i]] + AvailableOf(leased.messages, now)
    ensures Queue<V>().Decide(doc, Call(schema, TryClaim(now, leaseMillis)), token)
         == Put(leased, Claimed(NextClaim(doc.messages[i], token, now + leaseMillis)))
  {
    ReadableIffSorted(doc, schema);
    AvailableAreThere(doc.messages, now);
    i := FirstAvailable(doc.messages, now).value;
    var m := doc.messages[i];
    assert m in doc.messages;
    var next := m.(attempts := m.attempts + 1, lease := Some(Lease(token, now + leaseMillis)));
    leased := doc.(messages := doc.messages[i := next]);
    UpdateKeepsOrder(doc.messages, IdOf<V>, i, next);
    LeasingTakesFirst(doc.messages, now, i, next);
    assert ApplyClaim(doc, now, leaseMillis, token)
        == Put(leased, Claimed(NextClaim(m, token, now + leaseMillis)));
  }

  /** From the queue that any history leaves, a worker that keeps claiming at one reading gets exactly the
      available messages; in the order of their publication if and only if their identifiers
      increase in that order. */
  lemma {:induction false} ClaimsInPublishOrderIff<V(!new)>(
    schema: string, h: seq<Event<V>>, now: U64, leaseMillis: nat, tokens: seq<Uuid>) returns (claims: seq<Claim<V>>)
    requires FromEmpty(schema, h) && 0 < leaseMillis && now + leaseMillis <= U64_MAX
    requires |tokens| == |AvailableOf(After(schema, h).messages, now)|
    requires forall m <- AvailableOf(After(schema, h).messages, now) :: m.attempts < U32_MAX
    ensures var d := ClaimAll(After(schema, h), schema, now, leaseMillis, tokens);
            d.Some? && d.value.1 == claims && FirstAvailable(d.value.0.messages, now).None?
    ensures var available := AvailableOf(After(schema, h).messages, now);
            && (forall m :: m in available <==> m in After(schema, h).messages && Available(m, now))
            && |claims| == |available|
            && (forall k :: 0 <= k < |claims| ==> claims[k] == NextClaim(available[k], tokens[k], now + leaseMillis))
            && (ClaimedInPublishOrder(h, claims) <==> IncreaseWithPublication(h, available))
  {
    AvailableInHistory(schema, h, now);
    claims := ClaimsAllAvailable(After(schema, h), schema, now, leaseMillis, tokens);
    OrderOfClaims(schema, h, AvailableOf(After(schema, h).messages, now), claims);
  }

  lemma {:induction false} AvailableInHistory<V(!new)>(schema: string, h: seq<Event<V>>, now: nat)
    requires FromEmpty(schema, h)
    ensures After<V>(schema, h).header == Header(FORMAT_VERSION, KIND, schema) && Sorted(After(schema, h))
    ensures var available := AvailableOf(After(schema, h).messages, now);
            && Increasing(available, IdOf<V>)
            && (forall m :: m in available <==> m in After(schema, h).messages && Available(m, now))
            && forall k :: 0 <= k < |available| ==> Queued(After(schema, h), available[k].id)
  {
    HistoryDeterminesDocument(schema, h);
    var doc := After(schema, h);
    AvailableAreThere(doc.messages, now);
    AvailableKeepOrder(doc.messages, now);
    var available := AvailableOf(doc.messages, now);
    forall k | 0 <= k < |available| ensures Queued(doc, available[k].id) {
      assert available[k] in available;
    }
  }

  /** The claims came in the order in which their messages were published. */
  ghost predicate ClaimedInPublishOrder<V>(h: seq<Event<V>>, claims: seq<Claim<V>>) {
    forall i, j :: 0 <= i < j < |claims| ==> PublishedBefore(h, claims[i].id, claims[j].id)
  }

  /** Of these messages, those published later carry greater identifiers. */
  ghost predicate IncreaseWithPublication<V>(h: seq<Event<V>>, ms: seq<Message<V>>) {
    forall i, j :: 0 <= i < |ms| && 0 <= j < |ms| && PublishedBefore(h, ms[i].id, ms[j].id) ==> ms[i].id < ms[j].id
  }

  lemma {:induction false} OrderOfClaims<V(!new)>(
    schema: string, h: seq<Event<V>>, available: seq<Message<V>>, claims: seq<Claim<V>>)
    requires FromEmpty(schema, h) && Increasing(available, IdOf<V>)
    requires |claims| == |available| && forall k :: 0 <= k < |claims| ==> claims[k].id == available[k].id
    requires forall k :: 0 <= k < |available| ==> Queued(After(schema, h), available[k].id)
    ensures ClaimedInPublishOrder(h, claims) <==> IncreaseWithPublication(h, available)
  {
    if IncreaseWithPublication(h, available) {
      forall i, j | 0 <= i < j < |claims| ensures PublishedBefore(h, claims[i].id, claims[j].id) {
        assert IdOf(available[i]) < IdOf(available[j]);
        EitherFirst(schema, h, available[i].id, available[j].id);
      }
    }
    if ClaimedInPublishOrder(h, claims) {
      forall i, j | 0 <= i < |available| && 0 <= j < |available| && PublishedBefore(h, available[i].id, available[j].id)
        ensures available[i].id < available[j].id
      {
        PlacesDecide(schema, h, available, claims, i, j);
      }
    }
  }

  lemma {:induction false} PlacesDecide<V(!new)>(
    schema: string, h: seq<Event<V>>, available: seq<Message<V>>, claims: seq<Claim<V>>, i: nat, j: nat)
    requires FromEmpty(schema, h) && Increasing(available, IdOf<V>) && ClaimedInPublishOrder(h, claims)
    requires |claims| == |available| && forall k :: 0 <= k < |claims| ==> claims[k].id == available[k].id
    requires forall k :: 0 <= k < |available| ==> Queued(After(schema, h), available[k].id)
    requires i < |available| && j < |available| && PublishedBefore(h, available[i].id, available[j].id)
    ensures available[i].id < available[j].id
  {
    if i < j {
      assert IdOf(available[i]) < IdOf(available[j]);
    } else if j < i {
      assert PublishedBefore(h, claims[j].id, claims[i].id);
      assert IdOf(available[j]) < IdOf(available[i]);
      EitherFirst(schema, h, available[i].id, available[j].id);
      assert false;
    } else {
      NotBeforeItself(schema, h, available[i].id);
      assert false;
    }
  }

  lemma {:induction false} NotBeforeItself<V(!new)>(schema: string, h: seq<Event<V>>, id: Uuid)
    requires FromEmpty(schema, h)
    ensures !PublishedBefore(h, id, id)
  {
    if PublishedBefore(h, id, id) {
      var i, j :| 0 <= i < j < |h| && Publishes(h[i], id) && Publishes(h[j], id);
      PublishedOnce(schema, h, id, i);
      assert false;
    }
  }

  // --- A queue only published to ---

  ghost predicate PublishesOnly<V>(schema: string, h: seq<Event<V>>) {
    forall k :: 0 <= k < |h| ==> h[k].op.schema == schema && h[k].op.op.Publish?
  }

  /** The identifiers came out increasing, one publication after the other. */
  ghost predicate DrawnInOrder<V>(h: seq<Event<V>>) {
    forall i, j :: 0 <= i < j < |h| ==> h[i].draw < h[j].draw
  }

  /** The messages stand in the order of their publication. */
  ghost predicate InPublishOrder<V>(ms: seq<Message<V>>, h: seq<Event<V>>) {
    && |ms| == |h|
    && forall k :: 0 <= k < |h| && h[k].op.op.Publish? ==> ms[k] == Message(h[k].draw, h[k].op.op.value, 0, None)
  }

  /** A queue only published to holds every message, never claimed; in the order of publication exactly
      when the identifiers were drawn in order. */
  lemma {:induction false} PublishOrderIffDrawnInOrder<V(!new)>(schema: string, h: seq<Event<V>>)
    requires FromEmpty(schema, h) && PublishesOnly(schema, h)
    ensures |After(schema, h).messages| == |h|
    ensures forall m <- After(schema, h).messages :: m.lease.None? && m.attempts == 0
    ensures InPublishOrder(After(schema, h).messages, h) <==> DrawnInOrder(h)
  {
    HistoryDeterminesDocument(schema, h);
    var ms := After(schema, h).messages;
    if h != [] {
      var n := |h| - 1;
      PublishOneMore(schema, h);
      PublishOrderIffDrawnInOrder(schema, h[..n]);
      if DrawnInOrder(h) { assert DrawnInOrder(h[..n]); }
      if InPublishOrder(ms, h) {
        forall i, j | 0 <= i < j < |h| ensures h[i].draw < h[j].draw {
          assert IdOf(ms[i]) < IdOf(ms[j]);
        }
      }
    }
  }

  ghost function Fresh<V>(e: Event<V>): Message<V>
    requires e.op.op.Publish?
  {
    Message(e.draw, e.op.op.value, 0, None)
  }

  /** The last publication is inserted by its identifier. */
  lemma {:induction false} PublishInserts<V(!new)>(schema: string, h: seq<Event<V>>)
    requires FromEmpty(schema, h) && PublishesOnly(schema, h) && h != []
    ensures var n := |h| - 1;
            && FromEmpty(schema, h[..n]) && PublishesOnly(schema, h[..n])
            && After(schema, h).messages == Insert(After(schema, h[..n]).messages, IdOf<V>, Fresh(h[n]))
  {
    var n := |h| - 1;
    PrefixFromEmpty(schema, h, n);
    ReadableIffSorted(After(schema, h[..n]), schema);
    LastFits(schema, h);
  }

  lemma {:induction false} PublishOneMore<V(!new)>(schema: string, h: seq<Event<V>>)
    requires FromEmpty(schema, h) && PublishesOnly(schema, h) && h != []
    ensures var n := |h| - 1;
            var before, after := After(schema, h[..n]).messages, After(schema, h).messages;
            && FromEmpty(schema, h[..n]) && PublishesOnly(schema, h[..n])
            && |after| == |before| + 1 && (forall x <- after :: x in before || x == Fresh(h[n]))
            && (InPublishOrder(before, h[..n]) && DrawnInOrder(h) ==> InPublishOrder(after, h))
  {
    PublishInserts(schema, h);
    var before := After(schema, h[..|h| - 1]).messages;
    if InPublishOrder(before, h[..|h| - 1]) && DrawnInOrder(h) { LargestGoesLast(before, h); }
  }

  lemma {:induction false} LargestGoesLast<V>(before: seq<Message<V>>, h: seq<Event<V>>)
    requires h != [] && h[|h| - 1].op.op.Publish? && (forall k :: 0 <= k < |h| ==> h[k].op.op.Publish?)
    requires InPublishOrder(before, h[..|h| - 1]) && DrawnInOrder(h)
    ensures InPublishOrder(Insert(before, IdOf<V>, Fresh(h[|h| - 1])), h)
  {
    var n := |h| - 1;
    forall i | 0 <= i < n ensures before[i].id < h[n].draw {
      assert h[..n][i] == h[i];
    }
    RankIs(before, IdOf<V>, h[n].draw, n);
    assert Insert(before, IdOf<V>, Fresh(h[n])) == before + [Fresh(h[n])];
  }

  /** A lone worker gets the messages in the order of their publication exactly when their identifiers
      were drawn in order. */
  lemma {:induction false} DrainsInPublishOrderIff<V(!new)>(schema: string, h: seq<Event<V>>, rounds: seq<Round>)
    requires FromEmpty(schema, h) && PublishesOnly(schema, h)
    requires |rounds| == |h| && forall r <- rounds :: InTime(r)
    ensures var d := Drain(After(schema, h), schema, rounds);
            && d.Some? && d.value.0 == Empty(schema) && |d.value.1| == |h|
            && (DrawnInOrder(h) <==> forall k :: 0 <= k < |h| ==> d.value.1[k].id == h[k].draw)
            && (DrawnInOrder(h) ==> forall k :: 0 <= k < |h| ==> d.value.1[k].value == h[k].op.op.value)
  {
    HistoryDeterminesDocument(schema, h);
    PublishOrderIffDrawnInOrder(schema, h);
    var doc := After(schema, h);
    DrainsInOrder(doc, schema, rounds);
    var claims := FreshClaims(doc.messages, rounds);
    if forall k :: 0 <= k < |h| ==> claims[k].id == h[k].draw {
      forall i, j | 0 <= i < j < |h| ensures h[i].draw < h[j].draw {
        assert IdOf(doc.messages[i]) < IdOf(doc.messages[j]);
        assert claims[i].id == doc.messages[i].id && claims[j].id == doc.messages[j].id;
      }
    }
  }

  ghost function Entered<V>(client: nat, draw: Uuid, op: Op<V>, result: QueueResult<V>, at: nat): Event<V> {
    Entry(client, at, Call("", op), draw, result, true, at)
  }

  /** Two publications by different clients, whose identifiers were drawn the other way round, come out the other
      way round. */
  lemma {:induction false} LaterPublicationFirst<V(!new)>(first: V, second: V) returns (h: seq<Event<V>>)
    ensures FromEmpty("", h) && |h| == 2 && h[0].client != h[1].client
    ensures h[0].op == Call("", Publish(first)) && h[1].op == Call("", Publish(second))
    ensures After("", h).messages == [Message(1, second, 0, None), Message(2, first, 0, None)]
  {
    PublishStep([], 0, 2, first);
    var g := [Entered(0, 2, Publish(first), Published(2), 0)];
    assert [] + g == g && After("", g).messages == [Message(2, first, 0, None)];
    PublishStep(g, 1, 1, second);
    h := g + [Entered(1, 1, Publish(second), Published(1), 1)];
  }

  lemma {:induction false} PublishStep<V(!new)>(h: seq<Event<V>>, client: nat, draw: Uuid, value: V)
    requires FromEmpty("", h) && !Drawn(h, draw)
    ensures var g := h + [Entered(client, draw, Publish(value), Published(draw), |h|)];
            FromEmpty("", g)
            && After("", g).messages == Insert(After("", h).messages, IdOf<V>, Message(draw, value, 0, None))
  {
    HistoryDeterminesDocument("", h);
    ReadableIffSorted(After("", h), "");
    LegalAppend(Queue<V>(), Empty(""), h, Entered(client, draw, Publish(value), Published(draw), |h|));
  }

  // --- Clocks ---

  /** `clock` gives a worker's reading at each true time, never off by more than `skew` either way. */
  ghost predicate Within(clock: nat -> nat, skew: nat) {
    forall t: nat :: clock(t) <= t + skew && t <= clock(t) + skew
  }

  /** At true time `t` the workers granted claims `e` and `f` both read clocks inside their leases. */
  ghost predicate BothHold<V>(e: Event<V>, first: nat -> nat, f: Event<V>, second: nat -> nat, t: nat) {
    LiveAt(e, first(t)) && LiveAt(f, second(t))
  }

  /** With clocks off by at most `skew`, the time during which two workers both believe they hold a message is
      less than 2 * skew: it lies around the deadline of the earlier lease. With no skew there is none. */
  lemma {:induction false} SkewBoundsOverlap<V(!new)>(
    schema: string, h: seq<Event<V>>, id: Uuid, i: nat, j: nat, first: nat -> nat, second: nat -> nat, skew: nat)
    requires FromEmpty(schema, h) && i < j < |h| && Claims(h[i], id) && Claims(h[j], id)
    requires Within(first, skew) && Within(second, skew)
    ensures forall t: nat :: BothHold(h[i], first, h[j], second, t) ==>
                               h[i].result.claim.expiresAt - skew <= t < h[i].result.claim.expiresAt + skew
    ensures forall t: nat, u: nat ::
              BothHold(h[i], first, h[j], second, t) && BothHold(h[i], first, h[j], second, u) ==> u < t + 2 * skew
  {
    LeaseExclusion(schema, h, id, i, j);
  }

  function Slow(skew: nat): nat -> nat { (t: nat) => if t < skew then 0 else t - skew }

  function Fast(skew: nat): nat -> nat { (t: nat) => t + skew }

  /** The bound is reached: for every skew, and every lease of at least twice that length whose second
      deadline fits 64 bits, there is a history in which a slow and a fast worker both believe they
      hold the message at 2 * skew true times. */
  lemma {:induction false} SkewedClocksOverlap<V(!new)>(value: V, skew: nat, lease: nat) returns (h: seq<Event<V>>)
    requires 0 < lease && 2 * skew <= lease && 2 * lease <= U64_MAX
    ensures FromEmpty("", h) && |h| == 3 && Claims(h[1], 1) && Claims(h[2], 1)
    ensures Within(Slow(skew), skew) && Within(Fast(skew), skew) && h[1].result.claim.expiresAt == lease
    ensures forall t: nat :: lease - skew <= t < lease + skew ==>
                               BothHold(h[1], Slow(skew), h[2], Fast(skew), t)
  {
    h := ReclaimHistory(value, lease);
  }

  /** One message, published, claimed for `lease`, and claimed again at the deadline. */
  lemma {:induction false} ReclaimHistory<V(!new)>(value: V, lease: nat) returns (h: seq<Event<V>>)
    requires 0 < lease && 2 * lease <= U64_MAX
    ensures FromEmpty("", h) && |h| == 3
    ensures h[1] == Entered(1, 2, TryClaim(0, lease), Claimed(Claim(1, value, 2, 1, lease)), 1)
    ensures h[2] == Entered(2, 3, TryClaim(lease, lease), Claimed(Claim(1, value, 3, 2, lease + lease)), 2)
  {
    var e := Entered(0, 1, Publish(value), Published(1), 0);
    var f := Entered(1, 2, TryClaim(0, lease), Claimed(Claim(1, value, 2, 1, lease)), 1);
    var g := Entered(2, 3, TryClaim(lease, lease), Claimed(Claim(1, value, 3, 2, lease + lease)), 2);
    var sys := Queue<V>();
    LegalAppend(sys, Empty(""), [], e);
    LegalAppend(sys, Empty(""), [] + [e], f);
    LegalAppend(sys, Empty(""), [] + [e] + [f], g);
    h := [] + [e] + [f] + [g];
  }
}
