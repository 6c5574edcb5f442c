/** The queue on the filesystem store, end to end through crashes. */
module DurableQueue {
  import opened Prelude
  import opened CasProtocol
  import opened Disks
  import opened DurableStructures
  import opened DurableClients
  import opened QueueModel
  import opened QueueHistory
  import opened QueueSafety

  ghost function QueueService<V>(schema: string, codec: Codec<QueueModel.Document<V>>)
    : Service<QueueModel.Document<V>, QueueModel.Call<V>, QueueResult<V>>
  {
    Service(Queue<V>(), Empty(schema), codec)
  }

  /** What an answered queue call leaves for good: a message that is queued or acknowledged; a claim that is part of
      the history, so that its lease excludes all others of the message, made before or after; an
      acknowledged message that is gone. */
  ghost predicate Lasts<V>(schema: string, h: seq<Event<V>>, e: Event<V>) {
    match e.op.op
    case Publish(value) =>
      ValueOf(h, e.draw) == Some(value) && (Queued(After(schema, h), e.draw) || WasAcked(h, e.draw))
    case TryClaim(now, leaseMillis) => e.result.Claimed? && Granted(schema, h, e, now + leaseMillis)
    case Ack(_, id, _) => WasAcked(h, id) && !Queued(After(schema, h), id)
    case Len => true
  }

  /** The claim stands in the history with its token, attempt and deadline, and its lease is apart from
      every other lease of its message. */
  ghost predicate Granted<V>(schema: string, h: seq<Event<V>>, e: Event<V>, expiresAt: nat)
    requires e.result.Claimed? && e.op.op.TryClaim?
  {
    var claim := e.result.claim;
    && claim.token == e.draw && claim.expiresAt == expiresAt
    && exists i :: 0 <= i < |h| && h[i] == e && claim.attempt == |ClaimsOf(h[..i + 1], claim.id)|
                   && ApartFromOthers(h, i, claim.id)
  }

  ghost predicate ApartFromOthers<V>(h: seq<Event<V>>, i: nat, id: Uuid)
    requires i < |h|
  {
    forall j, time: nat :: 0 <= j < |h| && j != i && Claims(h[j], id) ==> !(LiveAt(h[i], time) && LiveAt(h[j], time))
  }

  /** End to end: after a crash at any moment, every message whose publish was answered is still queued, with its
      value, or acknowledged; every answered claim keeps its place among the claims of its message; and no
      message whose ack was answered is ever back. All that holds of histories of the queue holds of
      what the crash left, and of what is built on it later. */
  lemma {:induction false} QueueSurvivesCrash<V(!new)>(
    schema: string, codec: Codec<QueueModel.Document<V>>, states: seq<FS.State>, actions: seq<FS.Action>,
    scripts: seq<Script<QueueModel.Call<V>>>, past: seq<Event<V>>, n: nat, k: nat, after: Disk)
    returns (h: seq<Event<V>>)
    requires FS.Run(states, actions) && n < |states| && CrashLeaves(states[n].disk, k, after)
    requires Serves(QueueService(schema, codec), states[0], states[n].effects, scripts, past)
    ensures past <= h && FromEmpty(schema, h) && Stores(QueueService(schema, codec), Current(after), h)
    ensures forall d <- states[n].done :: d.op.Replace? && d.answer.Wrote? ==>
              exists i :: && 0 <= i < |scripts| && ReplacedBy(states[n].effects, d, i)
                          && Enters(QueueService(schema, codec), states[n].effects, scripts, i)
                          && var e := EntryOf(QueueService(schema, codec), states[n].effects, scripts, i);
                             e in h && Lasts(schema, h, e)
  {
    var service, effects := QueueService(schema, codec), states[n].effects;
    var kept := CrashKeepsHistory(service, states, actions, scripts, past, n, k, after);
    h := HistoryOf(service, effects, scripts, past, kept);
    HistoryHolds(service, effects, scripts, past, kept);
    forall d | d in states[n].done && d.op.Replace? && d.answer.Wrote?
      ensures exists i :: && 0 <= i < |scripts| && ReplacedBy(effects, d, i) && Enters(service, effects, scripts, i)
                          && var e := EntryOf(service, effects, scripts, i); e in h && Lasts(schema, h, e)
    {
      var i :| 0 <= i < kept && ReplacedBy(effects, d, i) && Enters(service, effects, scripts, i);
      EntryLasts(schema, h, EntryOf(service, effects, scripts, i));
    }
  }

  /** What a history records of a committed call lasts, however it is continued. */
  lemma {:induction false} EntryLasts<V(!new)>(schema: string, h: seq<Event<V>>, e: Event<V>)
    requires FromEmpty(schema, h) && e in h && e.wrote
    ensures Lasts(schema, h, e)
  {
    var i :| 0 <= i < |h| && h[i] == e;
    PrefixFromEmpty(schema, h, i);
    match e.op.op
    case Publish(_) =>
      PublishedOnce(schema, h, e.draw, i);
      Conservation(schema, h, e.draw);
    case TryClaim(_, _) =>
      var m := ClaimedMessage(After(schema, h[..i]), e);
      ClaimLasts(schema, h, i);
    case Ack(_, id, _) => Conservation(schema, h, id);
    case Len =>
  }

  lemma {:induction false} ClaimLasts<V(!new)>(schema: string, h: seq<Event<V>>, i: nat)
    requires FromEmpty(schema, h) && i < |h| && h[i].op.op.TryClaim? && h[i].result.Claimed?
    ensures Granted(schema, h, h[i], h[i].op.op.now + h[i].op.op.leaseMillis)
  {
    var id := h[i].result.claim.id;
    PrefixFromEmpty(schema, h, i);
    AttemptsCountClaims(schema, h, id, i);
    forall j, time: nat | 0 <= j < |h| && j != i && Claims(h[j], id)
      ensures !(LiveAt(h[i], time) && LiveAt(h[j], time))
    {
      if j < i { LeaseExclusion(schema, h, id, j, i); } else { LeaseExclusion(schema, h, id, i, j); }
    }
  }

  // --- What workers were told ---

  predicate IsPromise<V>(result: QueueResult<V>) {
    result.Published? || result.Claimed? || result.Acknowledged?
  }

  /** Only calls that write make promises. */
  lemma {:induction false} KeepsPromiseNothing<V>(doc: QueueModel.Document<V>, call: QueueModel.Call<V>, draw: Uuid)
    requires Queue<V>().Decide(doc, call, draw).Keep?
    ensures !IsPromise(Queue<V>().Decide(doc, call, draw).result)
  {
  }

  ghost predicate Kept<V>(schema: string, h: seq<Event<V>>, d: Done<QueueModel.Call<V>, QueueResult<V>>) {
    exists e <- h :: e.op == d.op && e.draw == d.draw && d.reply == Returned(e.result) && Lasts(schema, h, e)
  }

  /** End to end, with clients: a worker told that its message is published, that it got a claim, or that its ack was
      granted can rely on it across a crash of the machine at any moment, whatever the others do. */
  lemma {:induction false} PromisesSurviveCrash<V(!new)>(
    schema: string, codec: Codec<QueueModel.Document<V>>, past: seq<Event<V>>,
    worlds: seq<World<QueueModel.Document<V>, QueueModel.Call<V>, QueueResult<V>>>,
    moves: seq<Move<QueueModel.Call<V>>>,
    n: nat, k: nat, after: Disk) returns (h: seq<Event<V>>)
    requires WorldRun(QueueService(schema, codec), past, worlds, moves) && n < |worlds|
    requires CrashLeaves(worlds[n].fs.disk, k, after)
    ensures past <= h && FromEmpty(schema, h) && Stores(QueueService(schema, codec), Current(after), h)
    ensures forall f <- worlds[n].done ::
              f.Told? && f.done.reply.Returned? && IsPromise(f.done.reply.result) ==> Kept(schema, h, f.done)
  {
    var service, w := QueueService(schema, codec), worlds[n];
    h := ToldSurvivesCrash(service, past, worlds, moves, n, k, after);
    forall f | f in w.done && f.Told? && f.done.reply.Returned? && IsPromise(f.done.reply.result)
      ensures Kept(schema, h, f.done)
    {
      if ToldInHistory(h, f.done) {
        var e :| e in h && e.wrote && e.op == f.done.op && e.draw == f.done.draw && f.done.reply == Returned(e.result);
        EntryLasts(schema, h, e);
      } else {
        var i :| 0 <= i < |w.fs.effects| == |w.scripts| && DecidedToKeep(service, w.fs.effects, w.scripts, f.done, i);
        var x := w.scripts[i];
        KeepsPromiseNothing(codec.parse(w.fs.effects[x.snapshot].answer.found.value.bytes), x.op, x.draw);
        assert false;
      }
    }
  }
}
