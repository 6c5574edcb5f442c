/** Every run of the protocol is linearizable: each call that returned a result took
    effect at one instant inside the call, and running the calls one by one in the
    order of those instants gives the same results and the same document. */
module Linearizability {
  import opened Prelude
  import opened CasProtocol

  // --- What a returned call promises about the history ---

  ghost predicate TookEffect<O, R>(h: seq<Entry<O, R>>, d: Done<O, R>, result: R, i: int) {
    && 0 <= i < |h|
    && h[i].client == d.client && h[i].call == d.call && h[i].op == d.op && h[i].draw == d.draw
    && h[i].result == result
    && d.call <= h[i].at <= d.returnedAt
  }

  /** Another client's committed write falls between `d`'s read and its return. */
  ghost predicate Overtaken<O, R>(h: seq<Entry<O, R>>, client: nat, readAt: nat, i: int) {
    0 <= i < |h| && h[i].wrote && h[i].client != client && readAt < h[i].at
  }

  ghost predicate Explained<O, R>(h: seq<Entry<O, R>>, d: Done<O, R>) {
    match d.reply
    case Returned(result) => exists i :: TookEffect(h, d, result, i)
    case Conflicted(_, _) =>
      && d.call <= d.readAt
      && (forall i :: 0 <= i < |h| ==> h[i].call != d.call)
      && exists i :: Overtaken(h, d.client, d.readAt, i) && h[i].at < d.returnedAt
    case StoreFailed =>
      forall i :: 0 <= i < |h| && h[i].call == d.call ==>
                    h[i].wrote && h[i].op == d.op && h[i].draw == d.draw && d.call <= h[i].at <= d.returnedAt
  }

  // --- The invariant ---

  ghost predicate Versions<D, O, R>(s: State<D, O, R>) {
    && s.stored.version in s.used
    && forall c :: 0 <= c < |s.pcs| && s.pcs[c].Pending? ==> s.pcs[c].expected in s.used
  }

  /** A snapshot whose version is still current is still the document. */
  ghost predicate Snapshots<D, O, R>(sys: Structure<D, O, R>, s: State<D, O, R>) {
    forall c :: 0 <= c < |s.pcs| && s.pcs[c].Pending? ==>
                  var p := s.pcs[c];
                  && p.call <= p.readAt < s.clock
                  && sys.early(p.op).None?
                  && (p.expected == s.stored.version ==>
                        sys.apply(s.stored.bytes, p.op, p.draw) == Put(p.doc, p.result))
  }

  ghost predicate Replays<D, O, R>(sys: Structure<D, O, R>, doc: D, s: State<D, O, R>) {
    && Legal(sys, doc, s.history)
    && DocAfter(sys, doc, s.history) == s.stored.bytes
  }

  ghost predicate Clocks<D, O, R>(s: State<D, O, R>) {
    && (forall i :: 0 <= i < |s.history| ==> s.history[i].call <= s.history[i].at < s.clock)
    && (forall i, j :: 0 <= i < j < |s.history| ==> s.history[i].at < s.history[j].at)
    && (forall c :: 0 <= c < |s.pcs| && !s.pcs[c].Idle? ==> s.pcs[c].call < s.clock)
    && (forall k :: 0 <= k < |s.done| ==> s.done[k].call <= s.done[k].returnedAt < s.clock)
  }

  /** `call` names one call: nothing recorded belongs to a call still in progress. */
  ghost predicate Names<D, O, R>(s: State<D, O, R>) {
    ActiveNames(s) && HistoryNames(s) && DoneNames(s)
  }

  ghost predicate ActiveNames<D, O, R>(s: State<D, O, R>) {
    && (forall c :: 0 <= c < |s.pcs| && !s.pcs[c].Idle? ==> s.pcs[c].call < s.clock)
    && forall b, c :: 0 <= b < c < |s.pcs| && !s.pcs[b].Idle? && !s.pcs[c].Idle? ==> s.pcs[b].call != s.pcs[c].call
  }

  ghost predicate HistoryNames<D, O, R>(s: State<D, O, R>) {
    && (forall i :: 0 <= i < |s.history| ==> s.history[i].call < s.clock)
    && (forall c, i :: 0 <= c < |s.pcs| && !s.pcs[c].Idle? && 0 <= i < |s.history| ==>
                         s.history[i].call != s.pcs[c].call)
    && forall i, j :: 0 <= i < j < |s.history| ==> s.history[i].call != s.history[j].call
  }

  ghost predicate DoneNames<D, O, R>(s: State<D, O, R>) {
    && (forall k :: 0 <= k < |s.done| ==> s.done[k].call < s.clock)
    && (forall c, k :: 0 <= c < |s.pcs| && !s.pcs[c].Idle? && 0 <= k < |s.done| ==> s.done[k].call != s.pcs[c].call)
    && forall j, k :: 0 <= j < k < |s.done| ==> s.done[j].call != s.done[k].call
  }

  /** Each call owns its fresh identifier. */
  ghost predicate Draws<D, O, R>(s: State<D, O, R>) {
    ActiveDraws(s) && HistoryDraws(s) && DoneDraws(s)
  }

  ghost predicate ActiveDraws<D, O, R>(s: State<D, O, R>) {
    && (forall c :: 0 <= c < |s.pcs| && !s.pcs[c].Idle? ==> s.pcs[c].draw in s.drawn)
    && forall b, c :: 0 <= b < c < |s.pcs| && !s.pcs[b].Idle? && !s.pcs[c].Idle? ==> s.pcs[b].draw != s.pcs[c].draw
  }

  ghost predicate HistoryDraws<D, O, R>(s: State<D, O, R>) {
    && DistinctDraws(s.history)
    && (forall i :: 0 <= i < |s.history| ==> s.history[i].draw in s.drawn)
    && forall c, i :: 0 <= c < |s.pcs| && !s.pcs[c].Idle? && 0 <= i < |s.history| ==> s.history[i].draw != s.pcs[c].draw
  }

  ghost predicate DoneDraws<D, O, R>(s: State<D, O, R>) {
    && (forall k :: 0 <= k < |s.done| ==> s.done[k].draw in s.drawn)
    && (forall c, k :: 0 <= c < |s.pcs| && !s.pcs[c].Idle? && 0 <= k < |s.done| ==> s.done[k].draw != s.pcs[c].draw)
    && forall k, i :: 0 <= k < |s.done| && 0 <= i < |s.history| && s.done[k].draw == s.history[i].draw ==>
                        s.done[k].call == s.history[i].call
  }

  ghost predicate AllExplained<D, O, R>(s: State<D, O, R>) {
    forall k :: 0 <= k < |s.done| ==> Explained(s.history, s.done[k])
  }

  ghost predicate StaleOvertaken<D, O, R>(s: State<D, O, R>) {
    forall c :: 0 <= c < |s.pcs| && Stale(s, c) ==>
                  exists i :: Overtaken(s.history, c, s.pcs[c].readAt, i)
  }

  /** Client `c` holds a snapshot that somebody has since overwritten. */
  ghost predicate Stale<D, O, R>(s: State<D, O, R>, c: nat)
    requires c < |s.pcs|
  {
    s.pcs[c].Pending? && s.pcs[c].expected != s.stored.version
  }

  ghost predicate Inv<D, O, R>(sys: Structure<D, O, R>, doc: D, s: State<D, O, R>) {
    && Versions(s) && Snapshots(sys, s) && Replays(sys, doc, s)
    && Clocks(s) && Names(s) && Draws(s) && AllExplained(s) && StaleOvertaken(s)
  }

  // --- How a step moves calls and records ---

  /** `d` is the return of the very call that took effect as `e`. */
  ghost predicate Answers<O, R>(d: Done<O, R>, e: Entry<O, R>) {
    && d.client == e.client && d.call == e.call && d.op == e.op && d.draw == e.draw
    && (d.reply == Returned(e.result) || (e.wrote && d.reply.StoreFailed?))
  }

  ghost predicate ReturnOf<D, O, R>(d: Done<O, R>, c: nat, pc: Pc<D, O, R>, clock: nat) {
    && !pc.Idle? && d.client == c && d.call == pc.call && d.op == pc.op && d.draw == pc.draw
    && d.returnedAt == clock
  }

  /** One client moves: it invokes a call under a new name and a fresh draw, goes on with its call, or returns.
      An effect is recorded only together with its return. */
  ghost predicate StepShape<D, O, R>(s: State<D, O, R>, t: State<D, O, R>, c: nat) {
    && c < |s.pcs| && |t.pcs| == |s.pcs| && t.clock == s.clock + 1 && s.drawn <= t.drawn
    && (forall b :: 0 <= b < |s.pcs| && b != c ==> t.pcs[b] == s.pcs[b])
    && if t.done == s.done then t.history == s.history && CallShape(s, t, c)
       else
         && |t.done| == |s.done| + 1 && t.done == s.done + [t.done[|s.done|]]
         && t.pcs[c].Idle? && ReturnOf(t.done[|s.done|], c, s.pcs[c], s.clock)
         && (t.history == s.history || OneEffect(s, t))
  }

  ghost predicate CallShape<D, O, R>(s: State<D, O, R>, t: State<D, O, R>, c: nat)
    requires c < |s.pcs| == |t.pcs|
  {
    && !t.pcs[c].Idle?
    && if s.pcs[c].Idle? then t.pcs[c].call == s.clock && t.pcs[c].draw !in s.drawn && t.pcs[c].draw in t.drawn
       else t.pcs[c].call == s.pcs[c].call && t.pcs[c].draw == s.pcs[c].draw
  }

  ghost predicate OneEffect<D, O, R>(s: State<D, O, R>, t: State<D, O, R>)
    requires |t.done| == |s.done| + 1
  {
    && |t.history| == |s.history| + 1 && t.history == s.history + [t.history[|s.history|]]
    && Answers(t.done[|s.done|], t.history[|s.history|]) && t.history[|s.history|].at == s.clock
  }

  lemma {:induction false} StepMoves<D, O, R>(sys: Structure<D, O, R>, s: State<D, O, R>, a: Action<D, O>)
    requires Enabled(sys, s, a)
    ensures StepShape(s, Step(sys, s, a), a.client)
  {
  }

  // --- Preservation ---

  lemma {:induction false} StepKeepsVersions<D, O, R>(sys: Structure<D, O, R>, s: State<D, O, R>, a: Action<D, O>)
    requires Versions(s) && Enabled(sys, s, a)
    ensures Versions(Step(sys, s, a))
  {
  }

  lemma {:induction false} StepKeepsSnapshots<D, O, R>(sys: Structure<D, O, R>, s: State<D, O, R>, a: Action<D, O>)
    requires Versions(s) && Snapshots(sys, s) && Clocks(s) && Enabled(sys, s, a)
    ensures Snapshots(sys, Step(sys, s, a))
  {
  }

  lemma {:induction false} MovedClocks<D, O, R>(s: State<D, O, R>, t: State<D, O, R>, c: nat)
    requires StepShape(s, t, c) && Clocks(s)
    ensures Clocks(t)
  {
  }

  lemma {:induction false} MovedActiveNames<D, O, R>(s: State<D, O, R>, t: State<D, O, R>, c: nat)
    requires StepShape(s, t, c) && ActiveNames(s)
    ensures ActiveNames(t)
  {
  }

  lemma {:induction false} MovedHistoryNames<D, O, R>(s: State<D, O, R>, t: State<D, O, R>, c: nat)
    requires StepShape(s, t, c) && ActiveNames(s) && HistoryNames(s)
    ensures HistoryNames(t)
  {
  }

  lemma {:induction false} MovedDoneNames<D, O, R>(s: State<D, O, R>, t: State<D, O, R>, c: nat)
    requires StepShape(s, t, c) && ActiveNames(s) && DoneNames(s)
    ensures DoneNames(t)
  {
  }

  lemma {:induction false} MovedActiveDraws<D, O, R>(s: State<D, O, R>, t: State<D, O, R>, c: nat)
    requires StepShape(s, t, c) && ActiveDraws(s)
    ensures ActiveDraws(t)
  {
  }

  lemma {:induction false} MovedHistoryDraws<D, O, R>(s: State<D, O, R>, t: State<D, O, R>, c: nat)
    requires StepShape(s, t, c) && ActiveDraws(s) && HistoryDraws(s)
    ensures HistoryDraws(t)
  {
  }

  lemma {:induction false} MovedDoneDraws<D, O, R>(s: State<D, O, R>, t: State<D, O, R>, c: nat)
    requires StepShape(s, t, c) && ActiveDraws(s) && HistoryDraws(s) && DoneDraws(s) && DoneNames(s)
    ensures DoneDraws(t)
  {
  }

  /** A step records at most one effect, and it is what its call decides on the document of this
      instant. */
  lemma {:induction false} EffectsFit<D, O, R>(sys: Structure<D, O, R>, s: State<D, O, R>, a: Action<D, O>)
    requires Versions(s) && Snapshots(sys, s) && Enabled(sys, s, a)
    ensures var t := Step(sys, s, a);
            || (t.history == s.history && t.stored == s.stored)
            || (&& |t.history| == |s.history| + 1
                && t.history == s.history + [t.history[|s.history|]]
                && var e := t.history[|s.history|];
                   var outcome := sys.Decide(s.stored.bytes, e.op, e.draw);
                && e.result == outcome.result && e.wrote == outcome.Put?
                && (if e.wrote then t.stored.bytes == outcome.doc else t.stored == s.stored))
  {
  }

  lemma {:induction false} StepKeepsReplay<D, O, R>(sys: Structure<D, O, R>, doc: D, s: State<D, O, R>, a: Action<D, O>)
    requires Versions(s) && Snapshots(sys, s) && Replays(sys, doc, s) && Enabled(sys, s, a)
    ensures Replays(sys, doc, Step(sys, s, a))
  {
    var t := Step(sys, s, a);
    EffectsFit(sys, s, a);
    if t.history != s.history {
      LegalAppend(sys, doc, s.history, t.history[|s.history|]);
    }
  }

  /** What explains a call keeps explaining it when later calls take effect. */
  lemma {:induction false} ExplainedLater<O, R>(h: seq<Entry<O, R>>, d: Done<O, R>, e: Entry<O, R>)
    requires Explained(h, d) && e.call != d.call
    ensures Explained(h + [e], d)
  {
    var g := h + [e];
    assert forall i :: 0 <= i < |h| ==> g[i] == h[i];
    match d.reply
    case Returned(result) =>
      var i :| TookEffect(h, d, result, i);
      assert TookEffect(g, d, result, i);
    case Conflicted(_, _) =>
      var i :| Overtaken(h, d.client, d.readAt, i) && h[i].at < d.returnedAt;
      assert Overtaken(g, d.client, d.readAt, i);
    case StoreFailed =>
  }

  lemma {:induction false} StepKeepsExplanations<D, O, R>(sys: Structure<D, O, R>, s: State<D, O, R>, a: Action<D, O>)
    requires Versions(s) && Snapshots(sys, s) && Clocks(s) && Names(s) && AllExplained(s) && StaleOvertaken(s)
    requires Enabled(sys, s, a)
    ensures AllExplained(Step(sys, s, a))
  {
    var t := Step(sys, s, a);
    var h := s.history;
    forall k | 0 <= k < |t.done| ensures Explained(t.history, t.done[k]) {
      if k < |s.done| {
        assert Explained(h, s.done[k]);
        if |t.history| > |h| { ExplainedLater(h, s.done[k], t.history[|h|]); }
      } else {
        NewlyDoneIsExplained(sys, s, a);
      }
    }
  }

  lemma {:induction false} NewlyDoneIsExplained<D, O, R>(sys: Structure<D, O, R>, s: State<D, O, R>, a: Action<D, O>)
    requires Versions(s) && Snapshots(sys, s) && Clocks(s) && Names(s) && StaleOvertaken(s)
    requires Enabled(sys, s, a) && |Step(sys, s, a).done| > |s.done|
    ensures var t := Step(sys, s, a); Explained(t.history, t.done[|s.done|])
  {
    var t := Step(sys, s, a);
    var d := t.done[|s.done|];
    match d.reply
    case Returned(result) =>
      assert TookEffect(t.history, d, result, |s.history|);
    case Conflicted(_, _) =>
      assert Stale(s, a.client);
      var i :| Overtaken(s.history, a.client, d.readAt, i);
    case StoreFailed =>
  }

  lemma {:induction false} StepKeepsStaleOvertaken<D, O, R>(sys: Structure<D, O, R>, s: State<D, O, R>, a: Action<D, O>)
    requires Versions(s) && Snapshots(sys, s) && StaleOvertaken(s) && Enabled(sys, s, a)
    ensures StaleOvertaken(Step(sys, s, a))
  {
    var t := Step(sys, s, a);
    var h := s.history;
    forall c | 0 <= c < |t.pcs| && Stale(t, c)
      ensures exists i :: Overtaken(t.history, c, t.pcs[c].readAt, i)
    {
      if Stale(s, c) {
        var i :| Overtaken(h, c, s.pcs[c].readAt, i);
        assert Overtaken(t.history, c, t.pcs[c].readAt, i);
      } else {
        assert Overtaken(t.history, c, t.pcs[c].readAt, |h|);
      }
    }
  }

  lemma {:induction false} StepKeepsCalls<D, O, R>(sys: Structure<D, O, R>, s: State<D, O, R>, a: Action<D, O>)
    requires Clocks(s) && Names(s) && Draws(s) && Enabled(sys, s, a)
    ensures var t := Step(sys, s, a); Clocks(t) && Names(t) && Draws(t)
  {
    var t, c := Step(sys, s, a), a.client;
    StepMoves(sys, s, a);
    MovedClocks(s, t, c);
    MovedActiveNames(s, t, c);
    MovedHistoryNames(s, t, c);
    MovedDoneNames(s, t, c);
    MovedActiveDraws(s, t, c);
    MovedHistoryDraws(s, t, c);
    MovedDoneDraws(s, t, c);
  }

  lemma {:induction false} StepKeepsInv<D, O, R>(sys: Structure<D, O, R>, doc: D, s: State<D, O, R>, a: Action<D, O>)
    requires Inv(sys, doc, s) && Enabled(sys, s, a)
    ensures Inv(sys, doc, Step(sys, s, a))
  {
    StepKeepsVersions(sys, s, a);
    StepKeepsSnapshots(sys, s, a);
    StepKeepsCalls(sys, s, a);
    StepKeepsReplay(sys, doc, s, a);
    StepKeepsExplanations(sys, s, a);
    StepKeepsStaleOvertaken(sys, s, a);
  }

  lemma {:induction false} RunKeepsInv<D, O, R>(
    sys: Structure<D, O, R>, doc: D, states: seq<State<D, O, R>>, actions: seq<Action<D, O>>, n: nat)
    requires Run(sys, doc, states, actions) && n < |states|
    ensures Inv(sys, doc, states[n])
  {
    if n > 0 {
      RunKeepsInv(sys, doc, states, actions, n - 1);
      StepKeepsInv(sys, doc, states[n - 1], actions[n - 1]);
    }
  }

  // --- Nothing takes effect that nobody asked for ---

  ghost predicate Answered<O, R>(done: seq<Done<O, R>>, e: Entry<O, R>) {
    exists d <- done :: Answers(d, e)
  }

  ghost predicate AllAnswered<D, O, R>(s: State<D, O, R>) {
    forall e <- s.history :: Answered(s.done, e)
  }

  lemma {:induction false} RecordsKeepAnswers<D, O, R>(s: State<D, O, R>, t: State<D, O, R>, c: nat)
    requires StepShape(s, t, c) && AllAnswered(s)
    ensures AllAnswered(t)
  {
    forall e | e in t.history ensures Answered(t.done, e) {
      if e in s.history {
        assert Answered(s.done, e);
        var d :| d in s.done && Answers(d, e);
        assert d in t.done;
      } else {
        assert t.done[|s.done|] in t.done;
      }
    }
  }

  /** The call was made by its client, with this operation and this draw, before time n of the run. */
  ghost predicate Invoked<D, O, R>(
    states: seq<State<D, O, R>>, actions: seq<Action<D, O>>, n: nat, client: nat, call: nat, op: O, draw: Uuid)
    requires n <= |actions| < |states|
  {
    exists m :: 0 <= m < n && actions[m] == Action<D, O>.Invoke(client, op, draw) && states[m].clock == call
  }

  lemma {:induction false} EffectsAreAnswered<D, O, R>(
    sys: Structure<D, O, R>, doc: D, states: seq<State<D, O, R>>, actions: seq<Action<D, O>>, n: nat)
    requires Run(sys, doc, states, actions) && n < |states|
    ensures AllAnswered(states[n])
  {
    if n > 0 {
      EffectsAreAnswered(sys, doc, states, actions, n - 1);
      StepMoves(sys, states[n - 1], actions[n - 1]);
      RecordsKeepAnswers(states[n - 1], states[n], actions[n - 1].client);
    }
  }

  ghost predicate ActiveInvoked<D, O, R>(states: seq<State<D, O, R>>, actions: seq<Action<D, O>>, n: nat)
    requires n <= |actions| < |states|
  {
    forall c :: 0 <= c < |states[n].pcs| && !states[n].pcs[c].Idle? ==>
                  var pc := states[n].pcs[c]; Invoked(states, actions, n, c, pc.call, pc.op, pc.draw)
  }

  lemma {:induction false} CallsInProgressWereMade<D, O, R>(
    sys: Structure<D, O, R>, doc: D, states: seq<State<D, O, R>>, actions: seq<Action<D, O>>, n: nat)
    requires Run(sys, doc, states, actions) && n < |states|
    ensures ActiveInvoked(states, actions, n)
  {
    if n > 0 {
      var s, t, a := states[n - 1], states[n], actions[n - 1];
      CallsInProgressWereMade(sys, doc, states, actions, n - 1);
      assert t == Step(sys, s, a);
      forall c | 0 <= c < |t.pcs| && !t.pcs[c].Idle?
        ensures Invoked(states, actions, n, c, t.pcs[c].call, t.pcs[c].op, t.pcs[c].draw)
      {
        StepKeepsCall(sys, s, a, c);
        if !s.pcs[c].Idle? { InvokedLater(states, actions, n - 1, c, s.pcs[c].call, s.pcs[c].op, s.pcs[c].draw); }
      }
    }
  }

  lemma {:induction false} EveryCallWasMade<D, O, R>(
    sys: Structure<D, O, R>, doc: D, states: seq<State<D, O, R>>, actions: seq<Action<D, O>>, n: nat)
    requires Run(sys, doc, states, actions) && n < |states|
    ensures forall d <- states[n].done :: Invoked(states, actions, n, d.client, d.call, d.op, d.draw)
  {
    if n > 0 {
      var s, t, a := states[n - 1], states[n], actions[n - 1];
      EveryCallWasMade(sys, doc, states, actions, n - 1);
      CallsInProgressWereMade(sys, doc, states, actions, n - 1);
      StepMoves(sys, s, a);
      forall d | d in t.done ensures Invoked(states, actions, n, d.client, d.call, d.op, d.draw) {
        InvokedLater(states, actions, n - 1, d.client, d.call, d.op, d.draw);
      }
    }
  }

  lemma {:induction false} InvokedLater<D, O, R>(
    states: seq<State<D, O, R>>, actions: seq<Action<D, O>>, n: nat, client: nat, call: nat, op: O, draw: Uuid)
    requires n < |actions| < |states| && Invoked(states, actions, n, client, call, op, draw)
    ensures Invoked(states, actions, n + 1, client, call, op, draw)
  {
  }

  /** A call in progress after a step is the one in progress before, or has just been made. */
  lemma {:induction false} StepKeepsCall<D, O, R>(sys: Structure<D, O, R>, s: State<D, O, R>, a: Action<D, O>, c: nat)
    requires Enabled(sys, s, a) && c < |Step(sys, s, a).pcs| && !Step(sys, s, a).pcs[c].Idle?
    ensures var pc := Step(sys, s, a).pcs[c];
            c < |s.pcs|
            && if s.pcs[c].Idle? then a == Action<D, O>.Invoke(c, pc.op, pc.draw) && pc.call == s.clock
               else pc.call == s.pcs[c].call && pc.op == s.pcs[c].op && pc.draw == s.pcs[c].draw
  {
  }

  // --- Main theorems ---

  /** Linearizability. `s.history` lists the calls that took effect, in the order of the
      instants at which they did; replaying it gives every result and the stored
      document; every call that returned is explained by it; and it holds nothing else: every
      effect is that of a call its client made and had answered. */
  lemma {:induction false} Linearizable<D, O, R>(
    sys: Structure<D, O, R>, doc: D, states: seq<State<D, O, R>>, actions: seq<Action<D, O>>, n: nat)
    requires Run(sys, doc, states, actions) && n < |states|
    ensures var s := states[n];
            && Legal(sys, doc, s.history)
            && DocAfter(sys, doc, s.history) == s.stored.bytes
            && DistinctDraws(s.history)
            && (forall i, j :: 0 <= i < j < |s.history| ==>
                                 s.history[i].at < s.history[j].at && s.history[i].call != s.history[j].call)
            && (forall k :: 0 <= k < |s.done| ==> Explained(s.history, s.done[k]))
            && forall k, i :: 0 <= k < |s.done| && 0 <= i < |s.history| && s.done[k].draw == s.history[i].draw ==>
                                s.done[k].call == s.history[i].call
    ensures forall e <- states[n].history :: Answered(states[n].done, e)
    ensures forall d <- states[n].done :: Invoked(states, actions, n, d.client, d.call, d.op, d.draw)
  {
    RunKeepsInv(sys, doc, states, actions, n);
    EffectsAreAnswered(sys, doc, states, actions, n);
    EveryCallWasMade(sys, doc, states, actions, n);
  }

  /** The order of effects respects real time: a call that returned before another was
      invoked takes effect before it. */
  lemma {:induction false} RealTimeOrder<D, O, R>(
    sys: Structure<D, O, R>, doc: D, states: seq<State<D, O, R>>, actions: seq<Action<D, O>>, n: nat,
    d: Done<O, R>, e: Done<O, R>)
    requires Run(sys, doc, states, actions) && n < |states|
    requires d in states[n].done && e in states[n].done
    requires d.reply.Returned? && e.reply.Returned? && d.returnedAt < e.call
    ensures exists i, j :: TookEffect(states[n].history, d, d.reply.result, i)
                           && TookEffect(states[n].history, e, e.reply.result, j) && i < j
  {
    var h := states[n].history;
    RunKeepsInv(sys, doc, states, actions, n);
    assert Explained(h, d) && Explained(h, e);
    var i :| TookEffect(h, d, d.reply.result, i);
    var j :| TookEffect(h, e, e.reply.result, j);
    assert h[i].at < h[j].at;
  }

  /** The document changes only in a step by which a call takes effect by writing, and then it
      becomes what that call computes from the document at that very instant. */
  lemma {:induction false} OnlyWritesChangeTheDocument<D, O, R>(
    sys: Structure<D, O, R>, doc: D, states: seq<State<D, O, R>>, actions: seq<Action<D, O>>, n: nat)
    requires Run(sys, doc, states, actions) && n < |actions|
    ensures var s, t := states[n], states[n + 1];
            || t.stored == s.stored
            || (&& |t.history| == |s.history| + 1
                && var e := t.history[|s.history|];
                && e.wrote && sys.Decide(s.stored.bytes, e.op, e.draw) == Put(t.stored.bytes, e.result))
  {
    RunKeepsInv(sys, doc, states, actions, n);
    EffectsFit(sys, states[n], actions[n]);
  }

  // --- Conflicts are paid for by commits ---

  ghost function Commits<O, R>(h: seq<Entry<O, R>>): nat {
    if h == [] then 0 else Commits(h[..|h| - 1]) + if h[|h| - 1].wrote then 1 else 0
  }

  ghost function Conflicts<O, R>(done: seq<Done<O, R>>): nat {
    if done == [] then 0
    else Conflicts(done[..|done| - 1]) + if done[|done| - 1].reply.Conflicted? then 1 else 0
  }

  /** The clients whose call in progress is already bound to fail. */
  ghost function StaleClients<D, O, R>(s: State<D, O, R>): set<nat> {
    set c: nat | c < |s.pcs| && Stale(s, c)
  }

  /** n - 1 conflicts may be charged to each commit. */
  ghost function Budget(n: nat, commits: nat): int {
    if commits == 0 then 0 else Budget(n, commits - 1) + n - 1
  }

  lemma {:induction false} BudgetIsProduct(n: nat, commits: nat)
    ensures Budget(n, commits) == (n - 1) * commits
  {
    if commits > 0 { BudgetIsProduct(n, commits - 1); }
  }

  ghost predicate Paid<D, O, R>(s: State<D, O, R>) {
    Conflicts(s.done) + |StaleClients(s)| <= Budget(|s.pcs|, Commits(s.history))
  }

  lemma {:induction false} SmallSet(n: nat, s: set<nat>)
    requires forall x <- s :: x < n
    ensures |s| <= n
  {
    if n == 0 {
      assert s == {} by { assert forall x :: x !in s; }
    } else {
      SmallSet(n - 1, s - {n - 1});
    }
  }

  lemma {:induction false} SmallerSet(s: set<nat>, t: set<nat>)
    requires s <= t
    ensures |s| <= |t|
  {
    assert t == s + (t - s);
  }

  lemma {:induction false} StepKeepsPaid<D, O, R>(sys: Structure<D, O, R>, s: State<D, O, R>, a: Action<D, O>)
    requires Versions(s) && Enabled(sys, s, a) && Paid(s)
    ensures Paid(Step(sys, s, a))
  {
    var t := Step(sys, s, a);
    if t.stored == s.stored {
      NoCommitKeepsPaid(sys, s, a);
    } else {
      CommitKeepsPaid(sys, s, a);
    }
  }

  lemma {:induction false} CommitKeepsPaid<D, O, R>(sys: Structure<D, O, R>, s: State<D, O, R>, a: Action<D, O>)
    requires Enabled(sys, s, a) && Paid(s) && Step(sys, s, a).stored != s.stored
    ensures Paid(Step(sys, s, a))
  {
    var t := Step(sys, s, a);
    CommitCounts(sys, s, a);
    OthersAreFew(t, a.client);
    OneCommitPays(s, t);
  }

  lemma {:induction false} OneCommitPays<D, O, R>(s: State<D, O, R>, t: State<D, O, R>)
    requires Paid(s) && |t.pcs| == |s.pcs| && |StaleClients(t)| <= |t.pcs| - 1
    requires Commits(t.history) == Commits(s.history) + 1 && Conflicts(t.done) == Conflicts(s.done)
    ensures Paid(t)
  {
  }

  /** A commit raises the count of commits and reports no conflict. */
  lemma {:induction false} CommitCounts<D, O, R>(sys: Structure<D, O, R>, s: State<D, O, R>, a: Action<D, O>)
    requires Enabled(sys, s, a) && Step(sys, s, a).stored != s.stored
    ensures var t := Step(sys, s, a);
            && Commits(t.history) == Commits(s.history) + 1
            && Conflicts(t.done) == Conflicts(s.done)
            && |t.pcs| == |s.pcs| && t.pcs[a.client].Idle?
  {
    var t := Step(sys, s, a);
    assert t.history[..|s.history|] == s.history;
    assert t.done[..|s.done|] == s.done;
  }

  /** Without a commit nobody becomes stale. */
  lemma {:induction false} NoCommitShrinksStale<D, O, R>(sys: Structure<D, O, R>, s: State<D, O, R>, a: Action<D, O>)
    requires Enabled(sys, s, a) && Step(sys, s, a).stored == s.stored
    ensures StaleClients(Step(sys, s, a)) <= StaleClients(s) - {a.client}
  {
  }

  /** What a step without a commit adds to the records: at most one effect, no write; at most one return,
      a conflict only if its call was stale. */
  ghost predicate NoCommitShape<D, O, R>(s: State<D, O, R>, t: State<D, O, R>, c: nat) {
    && |t.pcs| == |s.pcs|
    && (|| t.history == s.history
        || (|t.history| == |s.history| + 1 && t.history[..|s.history|] == s.history && !t.history[|s.history|].wrote))
    && (|| t.done == s.done
        || (|t.done| == |s.done| + 1 && t.done[..|s.done|] == s.done
            && (t.done[|s.done|].reply.Conflicted? ==> c in StaleClients(s))))
  }

  lemma {:induction false} NoCommitMoves<D, O, R>(sys: Structure<D, O, R>, s: State<D, O, R>, a: Action<D, O>)
    requires Versions(s) && Enabled(sys, s, a) && Step(sys, s, a).stored == s.stored
    ensures NoCommitShape(s, Step(sys, s, a), a.client)
  {
  }

  /** A reported conflict ends a stale call. */
  lemma {:induction false} NoCommitCounts<D, O, R>(s: State<D, O, R>, t: State<D, O, R>, c: nat)
    requires NoCommitShape(s, t, c)
    ensures Commits(t.history) == Commits(s.history)
    ensures Conflicts(t.done) <= Conflicts(s.done) + if c in StaleClients(s) then 1 else 0
  {
  }

  lemma {:induction false} NoCommitKeepsPaid<D, O, R>(sys: Structure<D, O, R>, s: State<D, O, R>, a: Action<D, O>)
    requires Versions(s) && Enabled(sys, s, a) && Paid(s) && Step(sys, s, a).stored == s.stored
    ensures Paid(Step(sys, s, a))
  {
    NoCommitMoves(sys, s, a);
    NoCommitCounts(s, Step(sys, s, a), a.client);
    NoCommitShrinksStale(sys, s, a);
    SmallerSet(StaleClients(Step(sys, s, a)), StaleClients(s) - {a.client});
  }

  lemma {:induction false} OthersAreFew<D, O, R>(t: State<D, O, R>, c: nat)
    requires c < |t.pcs| && t.pcs[c].Idle?
    ensures |StaleClients(t)| <= |t.pcs| - 1
  {
    SmallSet(|t.pcs|, StaleClients(t) + {c});
  }

  /** With n clients, the conflicts reported plus the calls in progress already bound to conflict never
      exceed n - 1 times the committed writes. */
  lemma {:induction false} ConflictBound<D, O, R>(
    sys: Structure<D, O, R>, doc: D, states: seq<State<D, O, R>>, actions: seq<Action<D, O>>, n: nat)
    requires Run(sys, doc, states, actions) && n < |states|
    ensures Conflicts(states[n].done) + |StaleClients(states[n])| <= (|states[n].pcs| - 1) * Commits(states[n].history)
  {
    RunKeepsPaid(sys, doc, states, actions, n);
    BudgetIsProduct(|states[n].pcs|, Commits(states[n].history));
  }

  lemma {:induction false} RunKeepsPaid<D, O, R>(
    sys: Structure<D, O, R>, doc: D, states: seq<State<D, O, R>>, actions: seq<Action<D, O>>, n: nat)
    requires Run(sys, doc, states, actions) && n < |states|
    ensures Paid(states[n])
  {
    if n == 0 {
      assert StaleClients(states[0]) == {};
    } else {
      RunKeepsPaid(sys, doc, states, actions, n - 1);
      RunKeepsInv(sys, doc, states, actions, n - 1);
      StepKeepsPaid(sys, states[n - 1], actions[n - 1]);
    }
  }

  // --- The conflicts of one client ---

  /** A client makes one call at a time. */
  ghost predicate Sequential<D, O, R>(s: State<D, O, R>) {
    && (forall k :: 0 <= k < |s.done| ==> s.done[k].returnedAt < s.clock)
    && (forall c, k :: 0 <= c < |s.pcs| && !s.pcs[c].Idle? && 0 <= k < |s.done| && s.done[k].client == c ==>
                         s.done[k].returnedAt < s.pcs[c].call)
    && forall j, k :: 0 <= j < k < |s.done| && s.done[j].client == s.done[k].client ==>
                        s.done[j].returnedAt < s.done[k].call
  }

  lemma {:induction false} MovedSequential<D, O, R>(s: State<D, O, R>, t: State<D, O, R>, c: nat)
    requires StepShape(s, t, c) && Sequential(s)
    ensures Sequential(t)
  {
  }

  lemma {:induction false} RunIsSequential<D, O, R>(
    sys: Structure<D, O, R>, doc: D, states: seq<State<D, O, R>>, actions: seq<Action<D, O>>, n: nat)
    requires Run(sys, doc, states, actions) && n < |states|
    ensures Sequential(states[n])
  {
    if n > 0 {
      RunIsSequential(sys, doc, states, actions, n - 1);
      StepMoves(sys, states[n - 1], actions[n - 1]);
      MovedSequential(states[n - 1], states[n], actions[n - 1].client);
    }
  }

  /** `ks` are conflicts reported to client `c`, in the order in which they were. */
  ghost predicate ConflictsOf<O, R>(done: seq<Done<O, R>>, c: nat, ks: seq<nat>) {
    && (forall i :: 0 <= i < |ks| ==> ks[i] < |done| && done[ks[i]].client == c && done[ks[i]].reply.Conflicted?)
    && forall i, j :: 0 <= i < j < |ks| ==> ks[i] < ks[j]
  }

  /** The conflict `d` was caused by effect `i`: another client's write between its read and its
      return; and its own call took no effect. */
  ghost predicate CausedBy<O, R>(h: seq<Entry<O, R>>, d: Done<O, R>, i: int) {
    && Overtaken(h, d.client, d.readAt, i) && d.call <= d.readAt && h[i].at < d.returnedAt
    && forall e <- h :: e.call != d.call
  }

  /** However often a client is told of a conflict, that many distinct writes of other clients were
      committed, each while its own conflicted call was in progress; and none of those calls
      took effect. So a loop that retries k times and ends in a conflict was overtaken by k
      commits and wrote nothing. */
  lemma {:induction false} EachConflictHasItsCommit<D, O, R>(
    sys: Structure<D, O, R>, doc: D, states: seq<State<D, O, R>>, actions: seq<Action<D, O>>, n: nat, c: nat,
    ks: seq<nat>)
    returns (commits: seq<nat>)
    requires Run(sys, doc, states, actions) && n < |states| && ConflictsOf(states[n].done, c, ks)
    ensures |commits| == |ks| && forall i, j :: 0 <= i < j < |commits| ==> commits[i] < commits[j]
    ensures forall i :: 0 <= i < |ks| ==> CausedBy(states[n].history, states[n].done[ks[i]], commits[i])
  {
    RunKeepsInv(sys, doc, states, actions, n);
    RunIsSequential(sys, doc, states, actions, n);
    commits := CausesOf(states[n], c, ks);
  }

  lemma {:induction false} CausesOf<D, O, R>(s: State<D, O, R>, c: nat, ks: seq<nat>) returns (commits: seq<nat>)
    requires Clocks(s) && Sequential(s) && AllExplained(s) && ConflictsOf(s.done, c, ks)
    ensures |commits| == |ks| && forall i, j :: 0 <= i < j < |commits| ==> commits[i] < commits[j]
    ensures forall i :: 0 <= i < |ks| ==> CausedBy(s.history, s.done[ks[i]], commits[i])
  {
    commits := [];
    if ks != [] {
      var m := |ks| - 1;
      var before := CausesOf(s, c, ks[..m]);
      var i := CauseOf(s, s.done[ks[m]]);
      if m > 0 {
        assert CausedBy(s.history, s.done[ks[..m][m - 1]], before[m - 1]);
        CausesInOrder(s, s.done[ks[m - 1]], before[m - 1], s.done[ks[m]], i);
      }
      commits := before + [i];
    }
  }

  lemma {:induction false} CauseOf<D, O, R>(s: State<D, O, R>, d: Done<O, R>) returns (i: nat)
    requires Explained(s.history, d) && d.reply.Conflicted?
    ensures CausedBy(s.history, d, i)
  {
    i :| Overtaken(s.history, d.client, d.readAt, i) && s.history[i].at < d.returnedAt;
  }

  lemma {:induction false} CausesInOrder<D, O, R>(s: State<D, O, R>, d: Done<O, R>, i: nat, e: Done<O, R>, j: nat)
    requires Clocks(s) && CausedBy(s.history, d, i) && CausedBy(s.history, e, j) && d.returnedAt < e.call
    ensures i < j
  {
    assert s.history[i].at < s.history[j].at;
  }
}
