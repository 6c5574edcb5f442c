/** What callers are told, in terms of what the store answered: every reply is earned by the last step of its
    call, and a reply to a write also by its read. */
module Replies {
  import opened Prelude
  import opened StoreContract
  import opened CasProtocol
  import Linearizability

  ghost predicate StepAt<D, O, R>(
    sys: Structure<D, O, R>, states: seq<State<D, O, R>>, actions: seq<Action<D, O>>, i: nat)
    requires i < |actions| && i + 1 < |states|
  {
    && states[i].stored.version in states[i].used
    && Enabled(sys, states[i], actions[i]) && states[i + 1] == Step(sys, states[i], actions[i])
  }

  ghost predicate Steps<D, O, R>(sys: Structure<D, O, R>, states: seq<State<D, O, R>>, actions: seq<Action<D, O>>) {
    && |states| == |actions| + 1 && states[0].done == []
    && (forall c :: 0 <= c < |states[0].pcs| ==> states[0].pcs[c].Idle?)
    && forall i :: 0 <= i < |actions| ==> StepAt(sys, states, actions, i)
  }

  // --- The read behind a write ---

  /** Action `a` in state `s` is the read of the call: it found the object, and what the call decides on it is
      to write. */
  ghost predicate ReadsFor<D, O, R>(
    sys: Structure<D, O, R>, s: State<D, O, R>, a: Action<D, O>, client: nat, call: nat, op: O, draw: Uuid, readAt: nat)
  {
    && a.Read? && a.client == client && a.reply == Found(Some(s.stored)) && s.clock == readAt
    && client < |s.pcs| && s.pcs[client] == Invoked(op, draw, call)
    && sys.Decide(s.stored.bytes, op, draw).Put?
  }

  /** What a client that has read and not yet written holds is what its read found and its call decides on it. */
  ghost predicate PendingRead<D, O, R>(
    sys: Structure<D, O, R>, states: seq<State<D, O, R>>, actions: seq<Action<D, O>>, n: nat, c: nat, pc: Pc<D, O, R>)
    requires n <= |actions| < |states| && pc.Pending?
  {
    exists k :: 0 <= k < n && PendingReadAt(sys, states[k], actions[k], c, pc)
  }

  ghost predicate PendingReadAt<D, O, R>(
    sys: Structure<D, O, R>, s: State<D, O, R>, a: Action<D, O>, c: nat, pc: Pc<D, O, R>)
    requires pc.Pending?
  {
    && ReadsFor(sys, s, a, c, pc.call, pc.op, pc.draw, pc.readAt)
    && pc.expected == s.stored.version && sys.Decide(s.stored.bytes, pc.op, pc.draw) == Put(pc.doc, pc.result)
  }

  lemma {:induction false} PendingAfterStep<D, O, R>(
    sys: Structure<D, O, R>, s: State<D, O, R>, a: Action<D, O>, c: nat)
    requires Enabled(sys, s, a) && c < |Step(sys, s, a).pcs| && Step(sys, s, a).pcs[c].Pending?
    ensures c < |s.pcs|
    ensures s.pcs[c] == Step(sys, s, a).pcs[c] || PendingReadAt(sys, s, a, c, Step(sys, s, a).pcs[c])
  {
  }

  ghost predicate PendingReads<D, O, R>(
    sys: Structure<D, O, R>, states: seq<State<D, O, R>>, actions: seq<Action<D, O>>, n: nat)
    requires n <= |actions| < |states|
  {
    forall c :: 0 <= c < |states[n].pcs| && states[n].pcs[c].Pending? ==>
                  PendingRead(sys, states, actions, n, c, states[n].pcs[c])
  }

  lemma {:induction false} PendingWasRead<D, O, R>(
    sys: Structure<D, O, R>, states: seq<State<D, O, R>>, actions: seq<Action<D, O>>, n: nat)
    requires Steps(sys, states, actions) && n < |states|
    ensures PendingReads(sys, states, actions, n)
  {
    if n > 0 {
      PendingWasRead(sys, states, actions, n - 1);
      assert StepAt(sys, states, actions, n - 1);
      forall c | 0 <= c < |states[n].pcs| && states[n].pcs[c].Pending?
        ensures PendingRead(sys, states, actions, n, c, states[n].pcs[c])
      {
        PendingAfterStep(sys, states[n - 1], actions[n - 1], c);
        if states[n - 1].pcs[c] == states[n].pcs[c] {
          var k :| 0 <= k < n - 1 && PendingReadAt(sys, states[k], actions[k], c, states[n].pcs[c]);
          assert 0 <= k < n;
        } else {
          assert PendingReadAt(sys, states[n - 1], actions[n - 1], c, states[n].pcs[c]);
        }
      }
    }
  }

  // --- The reply and the last step ---

  /** Action `a` in state `s` ends the call of `d`. */
  ghost predicate Ends<D, O, R>(s: State<D, O, R>, a: Action<D, O>, d: Done<O, R>) {
    && a.client == d.client && d.client < |s.pcs| && !s.pcs[d.client].Idle? && s.clock == d.returnedAt
    && s.pcs[d.client].call == d.call && s.pcs[d.client].op == d.op && s.pcs[d.client].draw == d.draw
  }

  /** Which answer of the store leads to which reply. */
  ghost predicate RepliesTo<D, O, R>(a: Action<D, O>, reply: Reply<R>) {
    && (reply.StoreFailed? <==> (a.Read? || a.Write?) && a.reply.StoreError?)
    && (reply.Returned? <==> a.Reject? || (a.Read? && a.reply.Found?) || (a.Write? && a.reply.Wrote?))
    && (reply.Conflicted? <==> a.Write? && a.reply.Conflict?)
  }

  /** What the reply says, if the call did not write. */
  ghost predicate TellsOf<D, O, R>(sys: Structure<D, O, R>, s: State<D, O, R>, a: Action<D, O>, d: Done<O, R>) {
    && (a.Reject? ==> sys.early(d.op).Some? && d.reply == Returned(sys.early(d.op).value))
    && (a.Read? && d.reply.Returned? ==> sys.Decide(s.stored.bytes, d.op, d.draw) == Keep(d.reply.result))
  }

  /** What it says if the call asked for its replace in state `s`, with `t` the state afterwards, after reading in
      state `r`: a conflict names the version read and the version found instead; a result is what the
      call decided on what it read, which was still there and is replaced by what the call made of it. */
  ghost predicate TellsOfWrite<D, O, R>(
    sys: Structure<D, O, R>, r: State<D, O, R>, s: State<D, O, R>, t: State<D, O, R>, d: Done<O, R>)
  {
    && (d.reply.Conflicted? ==>
          && d.reply.expected == r.stored.version && d.reply.observed == Some(s.stored.version)
          && r.stored.version != s.stored.version && t.stored == s.stored)
    && (d.reply.Returned? ==>
          && r.stored.version == s.stored.version
          && sys.Decide(r.stored.bytes, d.op, d.draw) == Put(t.stored.bytes, d.reply.result))
  }

  ghost predicate EarnedAt<D, O, R>(
    sys: Structure<D, O, R>, states: seq<State<D, O, R>>, actions: seq<Action<D, O>>, m: nat, d: Done<O, R>)
    requires m < |actions| && m + 1 < |states|
  {
    && Ends(states[m], actions[m], d) && RepliesTo(actions[m], d.reply) && TellsOf(sys, states[m], actions[m], d)
    && (actions[m].Write? ==>
          exists k :: && 0 <= k < m
                      && ReadsFor(sys, states[k], actions[k], d.client, d.call, d.op, d.draw, d.readAt)
                      && TellsOfWrite(sys, states[k], states[m], states[m + 1], d))
  }

  ghost predicate Earned<D, O, R>(
    sys: Structure<D, O, R>, states: seq<State<D, O, R>>, actions: seq<Action<D, O>>, n: nat, d: Done<O, R>)
    requires n <= |actions| < |states|
  {
    exists m :: 0 <= m < n && EarnedAt(sys, states, actions, m, d)
  }

  /** The step by which a call returns. */
  lemma {:induction false} StepTells<D, O, R>(sys: Structure<D, O, R>, s: State<D, O, R>, a: Action<D, O>)
    requires s.stored.version in s.used && Enabled(sys, s, a) && Step(sys, s, a).done != s.done
    ensures var t := Step(sys, s, a);
            && |t.done| == |s.done| + 1 && t.done == s.done + [t.done[|s.done|]]
            && var d := t.done[|s.done|];
               && Ends(s, a, d) && RepliesTo(a, d.reply) && TellsOf(sys, s, a, d)
               && (a.Write? ==> s.pcs[d.client].Pending? && d.readAt == s.pcs[d.client].readAt)
  {
  }

  lemma {:induction false} WriteTells<D, O, R>(
    sys: Structure<D, O, R>, r: State<D, O, R>, b: Action<D, O>, s: State<D, O, R>, a: Action<D, O>)
    requires s.stored.version in s.used && Enabled(sys, s, a) && a.Write?
    requires PendingReadAt(sys, r, b, a.client, s.pcs[a.client])
    ensures var t := Step(sys, s, a);
            |t.done| == |s.done| + 1 && TellsOfWrite(sys, r, s, t, t.done[|s.done|])
  {
  }

  lemma {:induction false} NewReplyIsEarned<D, O, R>(
    sys: Structure<D, O, R>, states: seq<State<D, O, R>>, actions: seq<Action<D, O>>, m: nat)
    requires m < |actions| < |states| && StepAt(sys, states, actions, m) && PendingReads(sys, states, actions, m)
    requires states[m + 1].done != states[m].done
    ensures |states[m + 1].done| == |states[m].done| + 1
    ensures states[m + 1].done == states[m].done + [states[m + 1].done[|states[m].done|]]
    ensures EarnedAt(sys, states, actions, m, states[m + 1].done[|states[m].done|])
  {
    StepTells(sys, states[m], actions[m]);
    if actions[m].Write? {
      var c := actions[m].client;
      assert PendingRead(sys, states, actions, m, c, states[m].pcs[c]);
      var k :| 0 <= k < m && PendingReadAt(sys, states[k], actions[k], c, states[m].pcs[c]);
      WriteTells(sys, states[k], actions[k], states[m], actions[m]);
    }
  }

  lemma {:induction false} StepsEarnReplies<D, O, R>(
    sys: Structure<D, O, R>, states: seq<State<D, O, R>>, actions: seq<Action<D, O>>, n: nat)
    requires Steps(sys, states, actions) && n < |states|
    ensures forall d <- states[n].done :: Earned(sys, states, actions, n, d)
  {
    if n > 0 {
      StepsEarnReplies(sys, states, actions, n - 1);
      PendingWasRead(sys, states, actions, n - 1);
      assert StepAt(sys, states, actions, n - 1);
      forall d | d in states[n].done ensures Earned(sys, states, actions, n, d) {
        if states[n].done != states[n - 1].done { NewReplyIsEarned(sys, states, actions, n - 1); }
        if d in states[n - 1].done {
          var m :| 0 <= m < n - 1 && EarnedAt(sys, states, actions, m, d);
          assert 0 <= m < n && EarnedAt(sys, states, actions, m, d);
        } else {
          assert EarnedAt(sys, states, actions, n - 1, d);
        }
      }
    }
  }

  lemma {:induction false} RunSteps<D, O, R>(
    sys: Structure<D, O, R>, doc: D, states: seq<State<D, O, R>>, actions: seq<Action<D, O>>)
    requires Run(sys, doc, states, actions)
    ensures Steps(sys, states, actions)
  {
    forall i | 0 <= i < |actions| ensures StepAt(sys, states, actions, i) {
      Linearizability.RunKeepsInv(sys, doc, states, actions, i);
    }
  }

  /** In every run, every call that returned was told the truth about its last step: a store failure exactly if
      the store answered with an error; a result exactly if it was refused early, kept what it read, or
      its replace was answered with success; a conflict exactly if its replace was refused, with the
      version it had read and the one stored instead. */
  lemma {:induction false} RepliesAreEarned<D, O, R>(
    sys: Structure<D, O, R>, doc: D, states: seq<State<D, O, R>>, actions: seq<Action<D, O>>, n: nat)
    requires Run(sys, doc, states, actions) && n < |states|
    ensures forall d <- states[n].done :: Earned(sys, states, actions, n, d)
  {
    RunSteps(sys, doc, states, actions);
    StepsEarnReplies(sys, states, actions, n);
  }

  /** The step is the last one of its call. */
  ghost predicate EndsCall<D, O, R>(sys: Structure<D, O, R>, s: State<D, O, R>, a: Action<D, O>)
    requires Enabled(sys, s, a)
  {
    match a
    case Invoke(_, _, _) => false
    case Reject(_) => true
    case Read(c, reply) => reply.StoreError? || sys.Decide(s.stored.bytes, s.pcs[c].op, s.pcs[c].draw).Keep?
    case Write(_, _, _) => true
  }

  /** In every run a call that is refused early, read in vain, keeps what it read, or was answered on its replace is
      over and told in that very step, and in no other. */
  lemma {:induction false} EveryAnswerIsTold<D, O, R>(
    sys: Structure<D, O, R>, doc: D, states: seq<State<D, O, R>>, actions: seq<Action<D, O>>, m: nat)
    requires Run(sys, doc, states, actions) && m < |actions|
    ensures var s, t, a := states[m], states[m + 1], actions[m];
            if EndsCall(sys, s, a) then
              && |t.done| == |s.done| + 1 && t.done[..|s.done|] == s.done && t.pcs == s.pcs[a.client := Idle]
              && var d, pc := t.done[|s.done|], s.pcs[a.client];
                 && d.client == a.client && d.call == pc.call && d.op == pc.op && d.draw == pc.draw
                 && d.returnedAt == s.clock
            else t.done == s.done && !t.pcs[a.client].Idle?
  {
  }

  // --- Calls that nobody disturbs ---

  lemma {:induction false} ExtendRun<D, O, R>(
    sys: Structure<D, O, R>, doc: D, states: seq<State<D, O, R>>, actions: seq<Action<D, O>>, a: Action<D, O>)
    returns (more: seq<State<D, O, R>>, acts: seq<Action<D, O>>, t: State<D, O, R>)
    requires Run(sys, doc, states, actions) && Enabled(sys, states[|actions|], a)
    ensures t == Step(sys, states[|actions|], a) && more == states + [t] && acts == actions + [a]
    ensures Run(sys, doc, more, acts)
  {
    t := Step(sys, states[|actions|], a);
    more, acts := states + [t], actions + [a];
    forall i | 0 <= i < |acts| ensures Enabled(sys, more[i], acts[i]) && more[i + 1] == Step(sys, more[i], acts[i]) {
      if i < |actions| { assert more[i] == states[i] && more[i + 1] == states[i + 1] && acts[i] == actions[i]; }
    }
  }

  /** Whatever has happened, an idle client can make any call, and if nobody interferes and the store works, it is
      told what its call decides on the document of that moment, which is replaced accordingly. */
  lemma {:induction false} UndisturbedCall<D, O, R>(
    sys: Structure<D, O, R>, doc: D, states: seq<State<D, O, R>>, actions: seq<Action<D, O>>,
    c: nat, op: O, draw: Uuid, version: Version)
    returns (more: seq<State<D, O, R>>, acts: seq<Action<D, O>>)
    requires Run(sys, doc, states, actions)
    requires var s := states[|actions|];
             c < |s.pcs| && s.pcs[c].Idle? && draw !in s.drawn && version !in s.used
    ensures Run(sys, doc, more, acts) && states <= more && actions <= acts
    ensures var s, t := states[|actions|], more[|acts|];
            && |t.done| == |s.done| + 1 && t.pcs == s.pcs
            && var d := t.done[|s.done|];
               && d.client == c && d.call == s.clock && d.op == op && d.draw == draw
               && d.reply == Returned(sys.Decide(s.stored.bytes, op, draw).result)
               && t.stored.bytes == sys.NextDoc(s.stored.bytes, op, draw)
  {
    var s := states[|actions|];
    var t;
    more, acts, t := ExtendRun(sys, doc, states, actions, Invoke(c, op, draw));
    if sys.early(op).Some? {
      more, acts, t := ExtendRun(sys, doc, more, acts, Reject(c));
    } else {
      more, acts, t := ExtendRun(sys, doc, more, acts, Read(c, Found(Some(s.stored))));
      if t.pcs[c].Pending? {
        var post := Object(t.pcs[c].doc, version);
        Linearizability.RunKeepsInv(sys, doc, states, actions, |actions|);
        more, acts, t := ExtendRun(sys, doc, more, acts, Write(c, Wrote(version), post));
      }
    }
    assert t.pcs == s.pcs;
  }

  /** A store error tells nothing about the write: from every reachable state, a client whose replace may still succeed
      can be told of an error after its document was stored, and just as well after nothing was. */
  lemma {:induction false} ErrorsAreAmbiguous<D, O, R>(
    sys: Structure<D, O, R>, doc: D, states: seq<State<D, O, R>>, actions: seq<Action<D, O>>,
    c: nat, wrote: bool, version: Version)
    returns (more: seq<State<D, O, R>>, acts: seq<Action<D, O>>)
    requires Run(sys, doc, states, actions)
    requires var s := states[|actions|];
             && c < |s.pcs| && s.pcs[c].Pending? && s.pcs[c].expected == s.stored.version && version !in s.used
    ensures Run(sys, doc, more, acts) && states <= more && actions <= acts
    ensures var s, t := states[|actions|], more[|acts|];
            && |t.done| == |s.done| + 1 && t.done[|s.done|].client == c && t.done[|s.done|].reply == StoreFailed
            && t.stored == (if wrote then Object(s.pcs[c].doc, version) else s.stored)
  {
    var s := states[|actions|];
    Linearizability.RunKeepsInv(sys, doc, states, actions, |actions|);
    var post := if wrote then Object(s.pcs[c].doc, version) else s.stored;
    var t;
    more, acts, t := ExtendRun(sys, doc, states, actions, Write(c, StoreError, post));
  }
}
