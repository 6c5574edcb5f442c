/** Read, compute, conditionally replace: the protocol shared by every operation of
    Queue, Log and Map, run by any number of clients whose store steps interleave
    freely. A structure is given by what one call does to one document. */
module CasProtocol {
  import opened Prelude
  import opened StoreContract

  /** What a call decides from the snapshot it read. */
  datatype Outcome<+D, +R> =
    | Keep(result: R)
    | Put(doc: D, result: R)

  /** `early` answers calls that fail before touching the store; `apply` is the
      decision taken on a snapshot, given the call's own fresh identifier. */
  datatype Structure<!D, !O, !R> = Structure(
    early: O -> Option<R>,
    apply: (D, O, Uuid) -> Outcome<D, R>)
  {
    function Decide(doc: D, op: O, draw: Uuid): Outcome<D, R> {
      match early(op)
      case Some(result) => Keep(result)
      case None => apply(doc, op, draw)
    }

    function NextDoc(doc: D, op: O, draw: Uuid): D {
      match Decide(doc, op, draw)
      case Keep(_) => doc
      case Put(newDoc, _) => newDoc
    }
  }

  /** What the caller is told. */
  datatype Reply<+R> =
    | Returned(result: R)
    | Conflicted(expected: Version, observed: Option<Version>)
    | StoreFailed

  /** Where a client is inside its current call. `call` is the time of invocation and
      names the call. */
  datatype Pc<+D, +O, +R> =
    | Idle
    | Invoked(op: O, draw: Uuid, call: nat)
    | Pending(op: O, draw: Uuid, call: nat, readAt: nat, expected: Version, doc: D, result: R)

  /** A call that took effect, at time `at`. */
  datatype Entry<+O, +R> = Entry(
    client: nat, call: nat, op: O, draw: Uuid, result: R, wrote: bool, at: nat)

  /** A call that returned. */
  datatype Done<+O, +R> = Done(
    client: nat, call: nat, op: O, draw: Uuid, reply: Reply<R>, readAt: nat, returnedAt: nat)

  /** `history` and `done` only record what happened; no step reads them. */
  datatype State<+D, +O, +R> = State(
    stored: Object<D>,
    used: set<Version>,
    drawn: set<Uuid>,
    pcs: seq<Pc<D, O, R>>,
    history: seq<Entry<O, R>>,
    done: seq<Done<O, R>>,
    clock: nat)

  datatype Action<+D, +O> =
    | Invoke(client: nat, op: O, draw: Uuid)
    | Reject(client: nat)
    | Read(client: nat, reply: StoreReply<D>)
    | Write(client: nat, reply: StoreReply<D>, post: Object<D>)

  ghost predicate Init<D, O, R>(s: State<D, O, R>, doc: D) {
    && s.stored.bytes == doc
    && s.stored.version in s.used
    && (forall c :: 0 <= c < |s.pcs| ==> s.pcs[c] == Idle)
    && s.history == []
    && s.done == []
  }

  ghost predicate Enabled<D, O, R>(sys: Structure<D, O, R>, s: State<D, O, R>, a: Action<D, O>) {
    && a.client < |s.pcs|
    && var pc := s.pcs[a.client];
    match a
    case Invoke(_, _, draw) => pc.Idle? && draw !in s.drawn
    case Reject(_) => pc.Invoked? && sys.early(pc.op).Some?
    case Read(_, reply) =>
      && pc.Invoked? && sys.early(pc.op).None?
      && Contract(Some(s.stored), StoreOp<D>.Get, reply, Some(s.stored), s.used)
    case Write(_, reply, post) =>
      && pc.Pending?
      && Contract(Some(s.stored), StoreOp.Replace(pc.expected, pc.doc), reply, Some(post), s.used)
  }

  ghost function Step<D, O, R>(sys: Structure<D, O, R>, s: State<D, O, R>, a: Action<D, O>): State<D, O, R>
    requires Enabled(sys, s, a)
  {
    var c := a.client;
    var pc := s.pcs[c];
    var t := s.(clock := s.clock + 1);
    match a
    case Invoke(_, op, draw) =>
      t.(pcs := s.pcs[c := Invoked(op, draw, s.clock)], drawn := s.drawn + {draw})
    case Reject(_) => TakeEffect(t, c, sys.early(pc.op).value, false, s.clock, Returned(sys.early(pc.op).value))
    case Read(_, reply) =>
      if reply.StoreError? then Return(t, c, StoreFailed, s.clock)
      else (
          match sys.apply(s.stored.bytes, pc.op, pc.draw)
          case Keep(result) => TakeEffect(t, c, result, false, s.clock, Returned(result))
          case Put(doc, result) =>
            t.(pcs := s.pcs[c := Pending(pc.op, pc.draw, pc.call, s.clock, s.stored.version, doc, result)]))
    case Write(_, reply, post) =>
      var u := t.(stored := post, used := s.used + {post.version});
      if post == s.stored then
        Return(u, c, if reply.Conflict? then Conflicted(pc.expected, reply.current) else StoreFailed, pc.readAt)
      else
        TakeEffect(u, c, pc.result, true, pc.readAt, if reply.Wrote? then Returned(pc.result) else StoreFailed)
  }

  /** Client `c` returns `reply`. The time of this step is `t.clock - 1`. */
  ghost function Return<D, O, R>(t: State<D, O, R>, c: nat, reply: Reply<R>, readAt: nat): State<D, O, R>
    requires c < |t.pcs| && !t.pcs[c].Idle? && t.clock > 0
  {
    var pc := t.pcs[c];
    t.(pcs := t.pcs[c := Idle],
    done := t.done + [Done(c, pc.call, pc.op, pc.draw, reply, readAt, t.clock - 1)])
  }

  /** The call of client `c` takes effect now, and returns `reply`. */
  ghost function TakeEffect<D, O, R>(
    t: State<D, O, R>, c: nat, result: R, wrote: bool, readAt: nat, reply: Reply<R>): State<D, O, R>
    requires c < |t.pcs| && !t.pcs[c].Idle? && t.clock > 0
  {
    var pc := t.pcs[c];
    Return(t, c, reply, readAt)
    .(history := t.history + [Entry(c, pc.call, pc.op, pc.draw, result, wrote, t.clock - 1)])
  }

  /** `states` is a run from the document `doc` taking `actions`. */
  ghost predicate Run<D, O, R>(
    sys: Structure<D, O, R>, doc: D, states: seq<State<D, O, R>>, actions: seq<Action<D, O>>)
  {
    && |states| == |actions| + 1
    && Init(states[0], doc)
    && forall i :: 0 <= i < |actions| ==>
                     Enabled(sys, states[i], actions[i]) && states[i + 1] == Step(sys, states[i], actions[i])
  }

  // --- The sequential meaning of a history ---

  /** The document after running the calls of `h` one after another. */
  ghost function DocAfter<D, O, R>(sys: Structure<D, O, R>, doc: D, h: seq<Entry<O, R>>): D {
    if h == [] then doc
    else
      var last := h[|h| - 1];
      sys.NextDoc(DocAfter(sys, doc, h[..|h| - 1]), last.op, last.draw)
  }

  /** Every entry of `h` reports what the sequential run gives at its place. */
  ghost predicate Legal<D, O, R>(sys: Structure<D, O, R>, doc: D, h: seq<Entry<O, R>>) {
    forall i :: 0 <= i < |h| ==> LegalAt(sys, doc, h, i)
  }

  ghost predicate LegalAt<D, O, R>(sys: Structure<D, O, R>, doc: D, h: seq<Entry<O, R>>, i: nat)
    requires i < |h|
  {
    var outcome := sys.Decide(DocAfter(sys, doc, h[..i]), h[i].op, h[i].draw);
    h[i].result == outcome.result && h[i].wrote == outcome.Put?
  }

  ghost predicate DistinctDraws<O, R>(h: seq<Entry<O, R>>) {
    forall i, j :: 0 <= i < j < |h| ==> h[i].draw != h[j].draw
  }

  /** A prefix of a legal history is legal, and extending a history does not change the
      documents it passed through. */
  lemma {:induction false} LegalPrefix<D, O, R>(sys: Structure<D, O, R>, doc: D, h: seq<Entry<O, R>>, n: nat)
    requires Legal(sys, doc, h) && n <= |h|
    ensures Legal(sys, doc, h[..n])
  {
    forall i | 0 <= i < n ensures LegalAt(sys, doc, h[..n], i) {
      assert h[..n][..i] == h[..i];
      assert LegalAt(sys, doc, h, i);
    }
  }

  lemma {:induction false} LegalAppend<D, O, R>(sys: Structure<D, O, R>, doc: D, h: seq<Entry<O, R>>, e: Entry<O, R>)
    requires Legal(sys, doc, h)
    requires var outcome := sys.Decide(DocAfter(sys, doc, h), e.op, e.draw);
             e.result == outcome.result && e.wrote == outcome.Put?
    ensures Legal(sys, doc, h + [e])
    ensures DocAfter(sys, doc, h + [e]) == sys.NextDoc(DocAfter(sys, doc, h), e.op, e.draw)
  {
    var g := h + [e];
    assert g[..|h|] == h;
    forall i | 0 <= i < |g| ensures LegalAt(sys, doc, g, i) {
      assert g[..i] == h[..i];
      if i < |h| {
        assert LegalAt(sys, doc, h, i);
      } else {
        assert h[..i] == h;
      }
    }
  }
}
