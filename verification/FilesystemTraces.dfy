/** Where the effects of a filesystem run come from: calls that were started, and renames that
    succeeded. */
module FilesystemTraces {
  import opened Filesystems

  /** Process `process` started a call of `op` at time `call`, before step n. */
  ghost predicate Started(states: seq<State>, actions: seq<Action>, n: nat, process: nat, call: nat, op: Op)
    requires n <= |actions| < |states|
  {
    exists m :: 0 <= m < n && actions[m] == Start(process, op) && states[m].clock == call
  }

  /** Step m renames the temporary file of the very call that `e` is an effect of, at its time. */
  ghost predicate RenamesFor(s: State, a: Action, e: Effect) {
    && a == Swap(e.process, true) && s.clock == e.at
    && e.process < |s.pcs| && s.pcs[e.process].Publishing? && s.pcs[e.process].call == e.call
  }

  ghost predicate RenamedFor(states: seq<State>, actions: seq<Action>, n: nat, e: Effect)
    requires n <= |actions| < |states|
  {
    exists m :: 0 <= m < n && RenamesFor(states[m], actions[m], e)
  }

  /** An effect belongs to the call in progress of the process that steps; it is a write exactly
      in a successful rename. */
  ghost predicate EffectShape(s: State, t: State, a: Action) {
    && a.process < |s.pcs|
    && if t.effects == s.effects then !(a.Swap? && a.ok)
       else
         && |t.effects| == |s.effects| + 1 && t.effects == s.effects + [t.effects[|s.effects|]]
         && EffectOf(s, a, t.effects[|s.effects|])
  }

  ghost predicate EffectOf(s: State, a: Action, e: Effect)
    requires a.process < |s.pcs|
  {
    var pc := s.pcs[a.process];
    && !pc.Idle? && e.process == a.process && e.call == pc.call && e.op == pc.op && e.at == s.clock
    && !e.answer.StoreError? && (e.answer.Wrote? <==> RenamesFor(s, a, e)) && (a.Swap? && a.ok ==> e.answer.Wrote?)
  }

  lemma {:induction false} StepTakesEffect(s: State, a: Action)
    requires Enabled(s, a)
    ensures EffectShape(s, Step(s, a), a)
  {
  }

  /** Calls in progress after a step are those in progress before, or the one just started. */
  ghost predicate CallsShape(s: State, t: State, a: Action) {
    forall p :: 0 <= p < |t.pcs| && !t.pcs[p].Idle? ==> CallKept(s, t, a, p)
  }

  ghost predicate CallKept(s: State, t: State, a: Action, p: nat)
    requires p < |t.pcs| && !t.pcs[p].Idle?
  {
    var pc := t.pcs[p];
    && p < |s.pcs|
    && if s.pcs[p].Idle? then a == Start(p, pc.op) && pc.call == s.clock
       else pc.call == s.pcs[p].call && pc.op == s.pcs[p].op
  }

  lemma {:induction false} CallsGoOn(s: State, a: Action)
    requires Enabled(s, a)
    ensures CallsShape(s, Step(s, a), a)
  {
  }

  /** What matters here about a run. */
  ghost predicate Traced(states: seq<State>, actions: seq<Action>) {
    && |states| == |actions| + 1 && states[0].effects == []
    && (forall p :: 0 <= p < |states[0].pcs| ==> states[0].pcs[p].Idle?)
    && forall i :: 0 <= i < |actions| ==> TracedStep(states[i], states[i + 1], actions[i])
  }

  ghost predicate TracedStep(s: State, t: State, a: Action) {
    EffectShape(s, t, a) && CallsShape(s, t, a)
  }

  lemma {:induction false} RunIsTraced(states: seq<State>, actions: seq<Action>)
    requires Run(states, actions)
    ensures Traced(states, actions)
  {
    forall i | 0 <= i < |actions| ensures TracedStep(states[i], states[i + 1], actions[i]) {
      StepTakesEffect(states[i], actions[i]);
      CallsGoOn(states[i], actions[i]);
    }
  }

  lemma {:induction false} StartedLater(
    states: seq<State>, actions: seq<Action>, n: nat, process: nat, call: nat, op: Op)
    requires n < |actions| < |states| && Started(states, actions, n, process, call, op)
    ensures Started(states, actions, n + 1, process, call, op)
  {
  }

  ghost predicate ActiveStarted(states: seq<State>, actions: seq<Action>, n: nat)
    requires n <= |actions| < |states|
  {
    forall p :: 0 <= p < |states[n].pcs| && !states[n].pcs[p].Idle? ==>
                  Started(states, actions, n, p, states[n].pcs[p].call, states[n].pcs[p].op)
  }

  ghost predicate EffectsStarted(states: seq<State>, actions: seq<Action>, n: nat)
    requires n <= |actions| < |states|
  {
    forall e <- states[n].effects :: Started(states, actions, n, e.process, e.call, e.op)
  }

  /** Whatever a process is doing, it started. */
  lemma {:induction false} CallsWereStarted(states: seq<State>, actions: seq<Action>, n: nat)
    requires Traced(states, actions) && n < |states|
    ensures ActiveStarted(states, actions, n)
  {
    if n > 0 {
      var s, t := states[n - 1], states[n];
      CallsWereStarted(states, actions, n - 1);
      assert TracedStep(s, states[n - 1 + 1], actions[n - 1]);
      forall p | 0 <= p < |t.pcs| && !t.pcs[p].Idle?
        ensures Started(states, actions, n, p, t.pcs[p].call, t.pcs[p].op)
      {
        assert CallKept(s, t, actions[n - 1], p);
        if !s.pcs[p].Idle? { StartedLater(states, actions, n - 1, p, s.pcs[p].call, s.pcs[p].op); }
      }
    }
  }

  /** Every effect is that of a call its process started. */
  lemma {:induction false} EffectsWereStarted(states: seq<State>, actions: seq<Action>, n: nat)
    requires Traced(states, actions) && n < |states|
    ensures EffectsStarted(states, actions, n)
  {
    if n > 0 {
      EffectsWereStarted(states, actions, n - 1);
      CallsWereStarted(states, actions, n - 1);
      assert TracedStep(states[n - 1], states[n - 1 + 1], actions[n - 1]);
      NextEffectWasStarted(states, actions, n - 1);
    }
  }

  lemma {:induction false} NextEffectWasStarted(states: seq<State>, actions: seq<Action>, n: nat)
    requires n < |actions| < |states| && EffectShape(states[n], states[n + 1], actions[n])
    requires EffectsStarted(states, actions, n) && ActiveStarted(states, actions, n)
    ensures EffectsStarted(states, actions, n + 1)
  {
    forall e | e in states[n + 1].effects ensures Started(states, actions, n + 1, e.process, e.call, e.op) {
      StartedLater(states, actions, n, e.process, e.call, e.op);
    }
  }

  /** Every effect has an answer, and is a write only if a rename of its call succeeded. */
  lemma {:induction false} WritesWereRenamed(states: seq<State>, actions: seq<Action>, n: nat)
    requires Traced(states, actions) && n < |states|
    ensures forall e <- states[n].effects ::
              !e.answer.StoreError? && (e.answer.Wrote? ==> RenamedFor(states, actions, n, e))
  {
    if n > 0 {
      WritesWereRenamed(states, actions, n - 1);
      assert TracedStep(states[n - 1], states[n - 1 + 1], actions[n - 1]);
      forall e | e in states[n].effects
        ensures !e.answer.StoreError? && (e.answer.Wrote? ==> RenamedFor(states, actions, n, e))
      {
        if e in states[n - 1].effects {
          if e.answer.Wrote? { RenamedLater(states, actions, n - 1, e); }
        } else {
          assert e.answer.Wrote? ==> RenamesFor(states[n - 1], actions[n - 1], e);
        }
      }
    }
  }

  lemma {:induction false} RenamedLater(states: seq<State>, actions: seq<Action>, n: nat, e: Effect)
    requires n < |actions| < |states| && RenamedFor(states, actions, n, e)
    ensures RenamedFor(states, actions, n + 1, e)
  {
    var m :| 0 <= m < n && RenamesFor(states[m], actions[m], e);
  }

  ghost predicate HasWriteOf(effects: seq<Effect>, s: State, a: Action) {
    exists e <- effects :: e.answer.Wrote? && RenamesFor(s, a, e)
  }

  lemma {:induction false} RenameIsWrite(s: State, t: State, a: Action)
    requires EffectShape(s, t, a) && a.Swap? && a.ok
    ensures HasWriteOf(t.effects, s, a)
  {
    assert t.effects[|s.effects|] in t.effects;
  }

  lemma {:induction false} WriteStays(effects: seq<Effect>, more: seq<Effect>, s: State, a: Action)
    requires HasWriteOf(effects, s, a) && effects <= more
    ensures HasWriteOf(more, s, a)
  {
    var e :| e in effects && e.answer.Wrote? && RenamesFor(s, a, e);
    assert e in more;
  }

  /** Every successful rename is the effect of its call. */
  lemma {:induction false} RenamesTakeEffect(states: seq<State>, actions: seq<Action>, n: nat, m: nat)
    requires Traced(states, actions) && m < n < |states| && actions[m].Swap? && actions[m].ok
    ensures HasWriteOf(states[n].effects, states[m], actions[m])
  {
    forall i | 0 <= i < |actions| ensures states[i].effects <= states[i + 1].effects {
      assert TracedStep(states[i], states[i + 1], actions[i]);
    }
    assert TracedStep(states[m], states[m + 1], actions[m]);
    RenameIsWrite(states[m], states[m + 1], actions[m]);
    EffectsOnlyGrow(states, m + 1, n);
    WriteStays(states[m + 1].effects, states[n].effects, states[m], actions[m]);
  }

  lemma {:induction false} EffectsOnlyGrow(states: seq<State>, m: nat, n: nat)
    requires m <= n < |states| && forall i :: 0 <= i < |states| - 1 ==> states[i].effects <= states[i + 1].effects
    ensures states[m].effects <= states[n].effects
  {
    if m < n {
      EffectsOnlyGrow(states, m, n - 1);
      assert states[n - 1].effects <= states[n - 1 + 1].effects;
    }
  }
}
