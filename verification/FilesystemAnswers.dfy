/** When a call of the filesystem store reports an error: exactly if one of its own system calls failed; and when
    a lock is granted: to readers if nobody writes, to a writer if nobody else is there. */
module FilesystemAnswers {
  import opened Prelude
  import opened Disks
  import opened Filesystems
  import opened FilesystemRefinement

  predicate ActionFails(a: Action) {
    match a
    case GiveUp(_) => true
    case Inspect(_, ok, _) => !ok
    case CreateTemporary(_, ok, _) => !ok
    case Fill(_, ok, _) => !ok
    case Flush(_, ok) => !ok
    case Swap(_, ok) => !ok
    case SyncParent(_, ok) => !ok
    case _ => false
  }

  /** The step is a failing one of that call of process `p`. */
  ghost predicate FailsAt(s: State, a: Action, p: nat, call: nat) {
    a.process == p && p < |s.pcs| && !s.pcs[p].Idle? && s.pcs[p].call == call && ActionFails(a)
  }

  ghost predicate FailedIn(states: seq<State>, actions: seq<Action>, n: nat, p: nat, call: nat)
    requires n <= |actions| < |states|
  {
    exists m :: 0 <= m < n && FailsAt(states[m], actions[m], p, call)
  }

  lemma {:induction false} FailedNext(states: seq<State>, actions: seq<Action>, n: nat, p: nat, call: nat)
    requires n < |actions| < |states|
    ensures FailedIn(states, actions, n + 1, p, call) <==>
              FailedIn(states, actions, n, p, call) || FailsAt(states[n], actions[n], p, call)
  {
    if FailedIn(states, actions, n + 1, p, call) {
      var m :| 0 <= m < n + 1 && FailsAt(states[m], actions[m], p, call);
    }
    if FailedIn(states, actions, n, p, call) {
      var m :| 0 <= m < n && FailsAt(states[m], actions[m], p, call);
    }
  }

  /** Whether process control shows that a call has failed. */
  ghost predicate ShowsFailure(pc: Pc) {
    pc.CleansUp? || (pc.Finishing? && pc.answer.StoreError?)
  }

  /** How a step of `p` changes that. */
  ghost predicate FailureShape(s: State, t: State, a: Action) {
    var p := a.process;
    && p < |s.pcs| == |t.pcs|
    && (forall q :: 0 <= q < |s.pcs| && q != p ==> t.pcs[q] == s.pcs[q])
    && t.clock == s.clock + 1
    && (t.pcs[p].Idle? || (if s.pcs[p].Idle? then t.pcs[p].call == s.clock && !ShowsFailure(t.pcs[p])
                           else t.pcs[p].call == s.pcs[p].call
                                && (ShowsFailure(t.pcs[p]) <==> ShowsFailure(s.pcs[p]) || ActionFails(a))))
    && (|| t.done == s.done
        || (&& !s.pcs[p].Idle? && t.pcs[p].Idle? && |t.done| == |s.done| + 1 && t.done == s.done + [t.done[|s.done|]]
            && var d := t.done[|s.done|];
               && d.process == p && d.call == s.pcs[p].call
               && (d.answer.StoreError? <==> ShowsFailure(s.pcs[p]) || ActionFails(a))))
  }

  lemma {:induction false} StepShowsFailure(s: State, a: Action)
    requires Enabled(s, a) && (a.Inspect? ==> ReadTarget(s.disk).Ok?)
    ensures FailureShape(s, Step(s, a), a)
  {
  }

  /** What matters here about a run. */
  ghost predicate FailureRun(states: seq<State>, actions: seq<Action>) {
    && |states| == |actions| + 1 && states[0].done == []
    && (forall p :: 0 <= p < |states[0].pcs| ==> states[0].pcs[p].Idle?)
    && forall i :: 0 <= i < |actions| ==> FailureStep(states, actions, i)
  }

  ghost predicate FailureStep(states: seq<State>, actions: seq<Action>, i: nat)
    requires i < |actions| && i + 1 < |states|
  {
    FailureShape(states[i], states[i + 1], actions[i]) && Calls(states[i])
  }

  lemma {:induction false} RunIsFailureRun(states: seq<State>, actions: seq<Action>)
    requires Run(states, actions)
    ensures FailureRun(states, actions)
  {
    forall i | 0 <= i < |actions| ensures FailureStep(states, actions, i) {
      RunKeepsInv(states, actions, i);
      SoundReads(states[i].disk, states[i].drawn);
      StepShowsFailure(states[i], actions[i]);
    }
  }

  /** Calls that failed were made before. */
  lemma {:induction false} FailedIsOld(states: seq<State>, actions: seq<Action>, n: nat, p: nat, call: nat)
    requires FailureRun(states, actions) && n < |states| && FailedIn(states, actions, n, p, call)
    ensures call < states[n].clock
  {
    var m :| 0 <= m < n && FailsAt(states[m], actions[m], p, call);
    assert FailureStep(states, actions, m);
    ClockAdvances(states, actions, m, n);
  }

  lemma {:induction false} ClockAdvances(states: seq<State>, actions: seq<Action>, m: nat, n: nat)
    requires FailureRun(states, actions) && m <= n < |states|
    ensures states[m].clock <= states[n].clock
  {
    if m < n {
      ClockAdvances(states, actions, m, n - 1);
      assert FailureStep(states, actions, n - 1);
    }
  }

  ghost predicate ProcessShows(states: seq<State>, actions: seq<Action>, n: nat, p: nat)
    requires n <= |actions| < |states| && p < |states[n].pcs|
  {
    var pc := states[n].pcs[p];
    !pc.Idle? ==> (ShowsFailure(pc) <==> FailedIn(states, actions, n, p, pc.call))
  }

  ghost predicate AllShow(states: seq<State>, actions: seq<Action>, n: nat)
    requires n <= |actions| < |states|
  {
    forall p :: 0 <= p < |states[n].pcs| ==> ProcessShows(states, actions, n, p)
  }

  ghost predicate FailuresShown(states: seq<State>, actions: seq<Action>, n: nat)
    requires n <= |actions| < |states|
  {
    && AllShow(states, actions, n)
    && forall d <- states[n].done :: d.answer.StoreError? <==> FailedIn(states, actions, n, d.process, d.call)
  }

  lemma {:induction false} RunShowsFailures(states: seq<State>, actions: seq<Action>, n: nat)
    requires FailureRun(states, actions) && n < |states|
    ensures FailuresShown(states, actions, n)
  {
    if n > 0 {
      RunShowsFailures(states, actions, n - 1);
      assert FailureStep(states, actions, n - 1);
      ProcessesShow(states, actions, n - 1);
      DoneShow(states, actions, n - 1);
    }
  }

  lemma {:induction false} ProcessesShow(states: seq<State>, actions: seq<Action>, n: nat)
    requires FailureRun(states, actions) && n < |actions| && FailuresShown(states, actions, n)
    requires FailureStep(states, actions, n)
    ensures AllShow(states, actions, n + 1)
  {
    var s, t, next := states[n], states[n + 1], n + 1;
    forall p | 0 <= p < |t.pcs| ensures ProcessShows(states, actions, next, p) {
      if !t.pcs[p].Idle? {
        assert ProcessShows(states, actions, n, p);
        FailedNext(states, actions, n, p, t.pcs[p].call);
        if s.pcs[p].Idle? && FailedIn(states, actions, n, p, t.pcs[p].call) {
          FailedIsOld(states, actions, n, p, t.pcs[p].call);
        }
      }
    }
  }

  lemma {:induction false} DoneShow(states: seq<State>, actions: seq<Action>, n: nat)
    requires FailureRun(states, actions) && n < |actions| && FailuresShown(states, actions, n)
    requires FailureStep(states, actions, n)
    ensures forall d <- states[n + 1].done ::
              d.answer.StoreError? <==> FailedIn(states, actions, n + 1, d.process, d.call)
  {
    var s, t, p := states[n], states[n + 1], actions[n].process;
    assert ProcessShows(states, actions, n, p);
    forall d | d in t.done ensures d.answer.StoreError? <==> FailedIn(states, actions, n + 1, d.process, d.call) {
      FailedNext(states, actions, n, d.process, d.call);
      if d in s.done {
        var k :| 0 <= k < |s.done| && s.done[k] == d;
        assert !s.pcs[p].Idle? ==> s.done[k].call != s.pcs[p].call;
      }
    }
  }

  /** In every run a call reports a store error exactly if one of its own steps failed: its lock could not be had, or
      its read, the creation, the writing or the sync of its temporary file, its rename, or the sync of the
      directory. */
  lemma {:induction false} ErrorsAreOwnFailures(states: seq<State>, actions: seq<Action>, n: nat)
    requires Run(states, actions) && n < |states|
    ensures forall d <- states[n].done :: d.answer.StoreError? <==> FailedIn(states, actions, n, d.process, d.call)
  {
    RunIsFailureRun(states, actions);
    RunShowsFailures(states, actions, n);
  }

  /** In every reachable state a waiting reader may have the lock exactly if no process holds it for a write, and a
      waiting writer exactly if no process holds it at all. */
  lemma {:induction false} LockGrantedIff(states: seq<State>, actions: seq<Action>, n: nat, p: nat)
    requires Run(states, actions) && n < |states| && p < |states[n].pcs| && states[n].pcs[p].Wants?
    ensures Enabled(states[n], Acquire(p)) <==>
              forall q :: 0 <= q < |states[n].pcs| && HoldsLock(states[n].pcs[q]) ==>
                            states[n].pcs[q].op.Get? && states[n].pcs[p].op.Get?
  {
    RunKeepsInv(states, actions, n);
    GrantedIff(states[n], p);
  }

  lemma {:induction false} GrantedIff(s: State, p: nat)
    requires Locks(s) && p < |s.pcs| && s.pcs[p].Wants?
    ensures Enabled(s, Acquire(p)) <==>
              forall q :: 0 <= q < |s.pcs| && HoldsLock(s.pcs[q]) ==> s.pcs[q].op.Get? && s.pcs[p].op.Get?
  {
    if s.writer.Some? { assert HoldsLock(s.pcs[s.writer.value]) && !s.pcs[s.writer.value].op.Get?; }
    if s.readers != {} {
      var q :| q in s.readers;
      assert HoldsLock(s.pcs[q]) && s.pcs[q].op.Get?;
    }
  }

  /** From every reachable state any process at work may die, which frees its lock, answers nothing, and leaves the disk
      as it is, its temporary file included. */
  lemma {:induction false} DeathFreesLock(states: seq<State>, actions: seq<Action>, p: nat)
    returns (more: seq<State>, acts: seq<Action>)
    requires Run(states, actions) && p < |states[|actions|].pcs| && !states[|actions|].pcs[p].Idle?
    ensures Run(more, acts) && states <= more && actions <= acts
    ensures var s, t := states[|actions|], more[|acts|];
            && t.pcs == s.pcs[p := Idle] && t.writer != Some(p) && p !in t.readers
            && t.disk == s.disk && t.effects == s.effects && t.done == s.done
  {
    var t := Step(states[|actions|], Die(p));
    more, acts := states + [t], actions + [Die(p)];
    forall i | 0 <= i < |acts| ensures Enabled(more[i], acts[i]) && more[i + 1] == Step(more[i], acts[i]) {
      if i < |actions| { assert more[i] == states[i] && more[i + 1] == states[i + 1] && acts[i] == actions[i]; }
    }
  }
}
