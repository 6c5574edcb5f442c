/** Clients on the filesystem store are never in each other's way for good: a call that nobody disturbs is told what it
    decides on the stored document, which is replaced accordingly. */
module DurableProgress {
  import opened Prelude
  import opened StoreContract
  import opened Bytes
  import opened CasProtocol
  import opened FilesystemRefinement
  import opened DurableStructures
  import opened DurableClients

  lemma {:induction false} MoveOn<D(!new), O, R>(
    service: Service<D, O, R>, past: seq<Entry<O, R>>, worlds: seq<World<D, O, R>>, moves: seq<Move<O>>, m: Move<O>)
    returns (more: seq<World<D, O, R>>, acts: seq<Move<O>>, u: World<D, O, R>)
    requires WorldRun(service, past, worlds, moves)
    requires FS.Enabled(worlds[|moves|].fs, ActionOf(m)) && Allowed(service, worlds[|moves|], m)
    ensures u == WorldAfter(service, worlds[|moves|], m, FS.Step(worlds[|moves|].fs, ActionOf(m)))
    ensures more == worlds + [u] && acts == moves + [m] && WorldRun(service, past, more, acts)
  {
    u := WorldAfter(service, worlds[|moves|], m, FS.Step(worlds[|moves|].fs, ActionOf(m)));
    more, acts := worlds + [u], moves + [m];
    forall i | 0 <= i < |acts| ensures StoreNextAt(more, acts, i) && ClientNextAt(service, more, acts, i) {
      if i < |moves| { assert StoreNextAt(worlds, moves, i) && ClientNextAt(service, worlds, moves, i); }
    }
  }

  /** Client `p` is free and nobody holds the lock. */
  ghost predicate AtRest<D, O, R>(w: World<D, O, R>, p: nat) {
    && p < |w.clients| == |w.fs.pcs| && w.clients[p].Free? && w.fs.pcs[p].Idle?
    && w.fs.writer == None && w.fs.readers == {}
  }

  /** The read of the call `op` made in world `w` is over, and nothing else has changed. */
  ghost predicate HasRead<D, O, R>(
    service: Service<D, O, R>, w: World<D, O, R>, u: World<D, O, R>, p: nat, op: O, draw: Uuid)
  {
    && p < |w.clients| == |w.fs.pcs| && |u.clients| == |w.clients| == |u.fs.pcs|
    && u.fs.disk == w.fs.disk && u.fs.pcs[p].Idle? && u.fs.writer == None && u.fs.readers == {}
    && u.fs.drawn == w.fs.drawn
    && match Verdict(service, Disks.Current(w.fs.disk), op, draw)
       case None => u.clients[p].Free? && OneMore(w.done, u.done) && TellsNothing(u.done[|w.done|], p, op, draw)
       case Some(Keep(result)) =>
         u.clients[p].Free? && OneMore(w.done, u.done) && TellsResult(u.done[|w.done|], p, op, draw, result)
       case Some(Put(doc, result)) =>
         && u.done == w.done && u.clients[p].Deciding? && u.clients[p].op == op && u.clients[p].draw == draw
         && u.clients[p].expected == Disks.Current(w.fs.disk).value.version
         && u.clients[p].doc == doc && u.clients[p].result == result
  }

  /** What a call decides on the object it finds. */
  ghost function Verdict<D, O, R>(service: Service<D, O, R>, found: FS.Stored, op: O, draw: Uuid)
    : Option<Outcome<D, R>>
  {
    if found.None? then None else Some(service.sys.Decide(service.codec.parse(found.value.bytes), op, draw))
  }

  predicate OneMore<O(==), R(==)>(before: seq<Finished<O, R>>, after: seq<Finished<O, R>>) {
    |after| == |before| + 1 && after[..|before|] == before
  }

  ghost predicate TellsNothing<O, R>(f: Finished<O, R>, p: nat, op: O, draw: Uuid) {
    f.NoObject? && f.client == p && f.op == op && f.draw == draw
  }

  ghost predicate TellsResult<O, R>(f: Finished<O, R>, p: nat, op: O, draw: Uuid, result: R) {
    f.Told? && f.done.client == p && f.done.op == op && f.done.draw == draw && f.done.reply == Returned(result)
  }

  /** Client `p` is at its read: it holds the lock alone. */
  ghost predicate IsReading<D, O, R>(w: World<D, O, R>, u: World<D, O, R>, p: nat, op: O, draw: Uuid) {
    && p < |w.clients| == |w.fs.pcs| && |u.clients| == |w.clients| == |u.fs.pcs|
    && u.fs.disk == w.fs.disk && u.fs.drawn == w.fs.drawn && u.done == w.done && u.fs.done == w.fs.done
    && u.clients[p].Reading? && u.clients[p].op == op && u.clients[p].draw == draw
    && u.fs.writer == None && u.fs.readers == {p} && !u.fs.pcs[p].Idle? && u.fs.pcs[p].op.Get?
  }

  lemma {:induction false} StartRead<D(!new), O, R>(
    service: Service<D, O, R>, past: seq<Entry<O, R>>, worlds: seq<World<D, O, R>>, moves: seq<Move<O>>,
    p: nat, op: O, draw: Uuid)
    returns (more: seq<World<D, O, R>>, acts: seq<Move<O>>)
    requires WorldRun(service, past, worlds, moves)
    requires var w := worlds[|moves|]; AtRest(w, p) && draw !in w.drawn && service.sys.early(op).None?
    ensures WorldRun(service, past, more, acts) && worlds <= more && moves <= acts
    ensures IsReading(worlds[|moves|], more[|acts|], p, op, draw) && more[|acts|].fs.pcs[p].Locked?
  {
    var u;
    more, acts, u := MoveOn(service, past, worlds, moves, Call(p, op, draw));
    more, acts, u := MoveOn(service, past, more, acts, Go(FS.Acquire(p)));
  }

  /** The read took effect. */
  lemma {:induction false} Look<D(!new), O, R>(
    service: Service<D, O, R>, past: seq<Entry<O, R>>, worlds: seq<World<D, O, R>>, moves: seq<Move<O>>,
    w: World<D, O, R>, p: nat, op: O, draw: Uuid, revision: Uuid)
    returns (more: seq<World<D, O, R>>, acts: seq<Move<O>>)
    requires WorldRun(service, past, worlds, moves)
    requires var u := worlds[|moves|];
             && IsReading(w, u, p, op, draw) && u.fs.pcs[p].Locked? && revision !in u.fs.drawn
             && Disks.ReadTarget(u.fs.disk) == Ok(Disks.Current(u.fs.disk))
    ensures WorldRun(service, past, more, acts) && worlds <= more && moves <= acts
    ensures var t := more[|acts|];
            && IsReading(w, t, p, op, draw) && t.fs.pcs[p].Finishing? && t.clients[p].seen.Some?
            && t.fs.pcs[p].answer == Found(Disks.Current(w.fs.disk))
  {
    var u;
    more, acts, u := MoveOn(service, past, worlds, moves, Go(FS.Inspect(p, true, revision)));
  }

  lemma {:induction false} DecidesOn<D, O, R>(
    service: Service<D, O, R>, w: World<D, O, R>, t: World<D, O, R>, p: nat, op: O, draw: Uuid)
    requires IsReading(w, t, p, op, draw) && t.fs.pcs[p].Finishing? && t.clients[p].seen.Some?
    requires t.fs.pcs[p].answer == Found(Disks.Current(w.fs.disk))
    ensures FS.Enabled(t.fs, FS.Release(p)) && Allowed(service, t, Go(FS.Release(p)))
    ensures var u := WorldAfter(service, t, Go(FS.Release(p)), FS.Step(t.fs, FS.Release(p)));
            HasRead(service, w, u, p, op, draw)
  {
    var after := FS.Step(t.fs, FS.Release(p));
    assert after.effects == t.fs.effects && |after.done| == |t.fs.done| + 1;
  }

  lemma {:induction false} Decides<D(!new), O, R>(
    service: Service<D, O, R>, past: seq<Entry<O, R>>, worlds: seq<World<D, O, R>>, moves: seq<Move<O>>,
    w: World<D, O, R>, p: nat, op: O, draw: Uuid)
    returns (more: seq<World<D, O, R>>, acts: seq<Move<O>>)
    requires WorldRun(service, past, worlds, moves)
    requires var t := worlds[|moves|];
             && IsReading(w, t, p, op, draw) && t.fs.pcs[p].Finishing? && t.clients[p].seen.Some?
             && t.fs.pcs[p].answer == Found(Disks.Current(w.fs.disk))
    ensures WorldRun(service, past, more, acts) && worlds <= more && moves <= acts
    ensures HasRead(service, w, more[|acts|], p, op, draw)
  {
    var u;
    DecidesOn(service, w, worlds[|moves|], p, op, draw);
    more, acts, u := MoveOn(service, past, worlds, moves, Go(FS.Release(p)));
  }

  // --- Every answer is told ---

  /** The store has answered client `p` in a call. */
  ghost predicate Answers<D, O, R>(w: World<D, O, R>, u: World<D, O, R>, p: nat) {
    && p < |w.clients| == |u.clients| && |u.fs.done| > |w.fs.done| && Active(w.clients[p])
  }

  /** The answer is what the client must write on. */
  ghost predicate LeadsToWrite<D, O, R>(service: Service<D, O, R>, c: Client<D, O, R>, answer: FS.Answer) {
    && c.Reading? && answer.Found? && answer.found.Some?
    && service.sys.Decide(service.codec.parse(answer.found.value.bytes), c.op, c.draw).Put?
  }

  ghost predicate Informed<D, O, R>(service: Service<D, O, R>, w: World<D, O, R>, u: World<D, O, R>, p: nat)
    requires Answers(w, u, p)
  {
    if LeadsToWrite(service, w.clients[p], u.fs.done[|w.fs.done|].answer)
    then u.done == w.done && u.clients[p].Deciding?
    else u.clients[p].Free? && OneMore(w.done, u.done) && CallOf(u.done[|w.done|]) == w.clients[p].call
  }

  /** In every run a client that the store answers is told in that very step that its call is over, unless it goes
      on to write. */
  lemma {:induction false} EveryAnswerIsTold<D(!new), O, R>(
    service: Service<D, O, R>, past: seq<Entry<O, R>>, worlds: seq<World<D, O, R>>, moves: seq<Move<O>>, i: nat)
    requires WorldRun(service, past, worlds, moves) && i < |moves|
    requires Answers(worlds[i], worlds[i + 1], ActionOf(moves[i]).process)
    ensures Informed(service, worlds[i], worlds[i + 1], ActionOf(moves[i]).process)
  {
    RunMoves(service, past, worlds, moves);
    assert MovedAt(service, worlds, moves, i);
    WorldIsOk(service, past, worlds, moves, i);
    StoreIsOk(service, past, worlds, moves, i + 1);
    AnswerInforms(service, worlds[i], worlds[i + 1], moves[i], Disks.Current(worlds[0].fs.disk),
                  Texts(worlds[0].fs.drawn));
  }

  lemma {:induction false} AnswerInforms<D, O, R>(
    service: Service<D, O, R>, w: World<D, O, R>, u: World<D, O, R>, m: Move<O>, init: FS.Stored, base: set<Version>)
    requires Moved(service, w, u, m) && WorldOk(service, w) && StoreOk(u.fs, init, base)
    requires Answers(w, u, ActionOf(m).process)
    ensures Informed(service, w, u, ActionOf(m).process)
  {
    var p := ActionOf(m).process;
    var c, d := w.clients[p], u.fs.done[|w.fs.done|];
    assert ClientOk(service, w.fs.effects, w.scripts, p, c, w.fs.pcs[p]);
    assert d in u.fs.done && u.fs.effects == w.fs.effects;
    if c.Reading? && d.answer.Found? && d.answer.found.Some? {
      ReadFound(service, w.fs.effects, w.scripts, p, c, w.fs.pcs[p], d.answer);
    }
  }

  // --- The replace ---

  /** Client `p` is free to write what it decided on. */
  ghost predicate MayReplace<D, O, R>(service: Service<D, O, R>, w: World<D, O, R>, p: nat) {
    && p < |w.clients| == |w.fs.pcs| && w.clients[p].Deciding? && w.fs.pcs[p].Idle?
    && w.fs.writer == None && w.fs.readers == {}
    && Disks.ReadTarget(w.fs.disk) == Ok(Disks.Current(w.fs.disk))
    && VersionOf(Disks.Current(w.fs.disk)) == Some(w.clients[p].expected)
    && |service.codec.text(w.clients[p].doc)| <= U64_MAX
  }

  ghost function ReplaceOf<D, O, R>(service: Service<D, O, R>, c: Client<D, O, R>): FS.Op
    requires c.Deciding?
  {
    StoreOp.Replace(c.expected, service.codec.text(c.doc))
  }

  /** The replace that client `p` asked for in world `w` has got so far. */
  ghost predicate Replacing<D, O, R>(service: Service<D, O, R>, w: World<D, O, R>, u: World<D, O, R>, p: nat)
    requires p < |w.clients| && w.clients[p].Deciding?
  {
    && |u.clients| == |w.clients| == |u.fs.pcs| && u.fs.writer == Some(p) && u.done == w.done
    && u.clients[p].Writing? && u.clients[p].op == w.clients[p].op && u.clients[p].draw == w.clients[p].draw
    && u.clients[p].result == w.clients[p].result
    && !u.fs.pcs[p].Idle? && u.fs.pcs[p].op == ReplaceOf(service, w.clients[p])
  }

  lemma {:induction false} AskReplace<D(!new), O, R>(
    service: Service<D, O, R>, past: seq<Entry<O, R>>, worlds: seq<World<D, O, R>>, moves: seq<Move<O>>, p: nat)
    returns (more: seq<World<D, O, R>>, acts: seq<Move<O>>)
    requires WorldRun(service, past, worlds, moves) && MayReplace(service, worlds[|moves|], p)
    ensures WorldRun(service, past, more, acts) && worlds <= more && moves <= acts
    ensures var w, u := worlds[|moves|], more[|acts|];
            && Replacing(service, w, u, p) && u.fs.pcs[p].Locked?
            && u.fs.disk == w.fs.disk && u.fs.drawn == w.fs.drawn
  {
    var w := worlds[|moves|];
    var u;
    more, acts, u := MoveOn(service, past, worlds, moves, Go(FS.Start(p, ReplaceOf(service, w.clients[p]))));
    more, acts, u := MoveOn(service, past, more, acts, Go(FS.Acquire(p)));
  }

  lemma {:induction false} StartReplace<D(!new), O, R>(
    service: Service<D, O, R>, past: seq<Entry<O, R>>, worlds: seq<World<D, O, R>>, moves: seq<Move<O>>,
    p: nat, revision: Uuid)
    returns (more: seq<World<D, O, R>>, acts: seq<Move<O>>)
    requires WorldRun(service, past, worlds, moves)
    requires MayReplace(service, worlds[|moves|], p) && revision !in worlds[|moves|].fs.drawn
    ensures WorldRun(service, past, more, acts) && worlds <= more && moves <= acts
    ensures var w, u := worlds[|moves|], more[|acts|];
            && Replacing(service, w, u, p) && u.fs.pcs[p].Checked? && u.fs.pcs[p].revision == revision
            && u.fs.disk == w.fs.disk
  {
    var u;
    more, acts := AskReplace(service, past, worlds, moves, p);
    more, acts, u := MoveOn(service, past, more, acts, Go(FS.Inspect(p, true, revision)));
  }

  lemma {:induction false} FillReplace<D(!new), O, R>(
    service: Service<D, O, R>, past: seq<Entry<O, R>>, worlds: seq<World<D, O, R>>, moves: seq<Move<O>>,
    w: World<D, O, R>, p: nat, name: Uuid)
    returns (more: seq<World<D, O, R>>, acts: seq<Move<O>>)
    requires WorldRun(service, past, worlds, moves) && p < |w.clients| && w.clients[p].Deciding?
    requires Replacing(service, w, worlds[|moves|], p) && worlds[|moves|].fs.pcs[p].Checked?
    requires name !in worlds[|moves|].fs.disk.temporaries
    ensures WorldRun(service, past, more, acts) && worlds <= more && moves <= acts
    ensures Replacing(service, w, more[|acts|], p)
    ensures var pc := more[|acts|].fs.pcs[p];
            && pc.Publishing? && pc.stage.Flushed? && pc.revision == worlds[|moves|].fs.pcs[p].revision
            && pc.name in more[|acts|].fs.disk.temporaries
  {
    var u;
    more, acts, u := MoveOn(service, past, worlds, moves, Go(FS.CreateTemporary(p, true, name)));
    more, acts, u := MoveOn(service, past, more, acts, Go(FS.Fill(p, true, 0)));
    more, acts, u := MoveOn(service, past, more, acts, Go(FS.Flush(p, true)));
  }

  lemma {:induction false} FinishReplace<D(!new), O, R>(
    service: Service<D, O, R>, past: seq<Entry<O, R>>, worlds: seq<World<D, O, R>>, moves: seq<Move<O>>,
    w: World<D, O, R>, p: nat)
    returns (more: seq<World<D, O, R>>, acts: seq<Move<O>>)
    requires WorldRun(service, past, worlds, moves) && p < |w.clients| && w.clients[p].Deciding?
    requires var u := worlds[|moves|];
             && Replacing(service, w, u, p) && u.fs.pcs[p].Publishing? && u.fs.pcs[p].stage.Flushed?
             && u.fs.pcs[p].name in u.fs.disk.temporaries
    ensures WorldRun(service, past, more, acts) && worlds <= more && moves <= acts
    ensures var c, t := w.clients[p], more[|acts|];
            && |t.clients| == |w.clients| && t.clients[p].Free?
            && OneMore(w.done, t.done)
            && TellsResult(t.done[|w.done|], p, c.op, c.draw, c.result)
            && |t.fs.effects| > 0
            && t.fs.effects[|t.fs.effects| - 1].post
            == Some(Object(FS.Written(ReplaceOf(service, c)), UuidText(worlds[|moves|].fs.pcs[p].revision)))
  {
    var u;
    more, acts, u := MoveOn(service, past, worlds, moves, Go(FS.Swap(p, true)));
    more, acts, u := MoveOn(service, past, more, acts, Go(FS.SyncParent(p, true)));
    more, acts, u := MoveOn(service, past, more, acts, Go(FS.Release(p)));
  }

  // --- The whole call ---

  lemma {:induction false} ReadsTheObject<D(!new), O, R>(
    service: Service<D, O, R>, past: seq<Entry<O, R>>, worlds: seq<World<D, O, R>>, moves: seq<Move<O>>)
    requires WorldRun(service, past, worlds, moves)
    ensures var s := worlds[|moves|].fs;
            && Disks.ReadTarget(s.disk) == Ok(Disks.Current(s.disk))
            && (s.effects != [] ==> Disks.Current(s.disk) == s.effects[|s.effects| - 1].post)
  {
    StoreRuns(service, past, worlds, moves);
    RunReadsTheObject(StoresOf(worlds), ActionsOf(moves));
  }

  lemma {:induction false} RunReadsTheObject(states: seq<FS.State>, actions: seq<FS.Action>)
    requires FS.Run(states, actions)
    ensures var s := states[|actions|];
            && Disks.ReadTarget(s.disk) == Ok(Disks.Current(s.disk))
            && (s.effects != [] ==> Disks.Current(s.disk) == s.effects[|s.effects| - 1].post)
  {
    FilesystemKeepsContract(states, actions, |actions|);
  }

  /** What is told, and what is left in the store, when client `p` calls `op` and is not disturbed. */
  ghost predicate Served<D, O, R>(
    service: Service<D, O, R>, w: World<D, O, R>, t: World<D, O, R>, p: nat, op: O, draw: Uuid, revision: Uuid)
  {
    && p < |t.clients| && t.clients[p].Free? && OneMore(w.done, t.done)
    && var f := t.done[|w.done|];
    match Verdict(service, Disks.Current(w.fs.disk), op, draw)
    case None => TellsNothing(f, p, op, draw) && t.fs.disk == w.fs.disk
    case Some(Keep(result)) => TellsResult(f, p, op, draw, result) && t.fs.disk == w.fs.disk
    case Some(Put(doc, result)) =>
      && TellsResult(f, p, op, draw, result)
      && Disks.Current(t.fs.disk) == Some(Object(service.codec.text(doc), UuidText(revision)))
  }

  /** The replace decided on in world `w` is over. */
  ghost predicate HasWritten<D, O, R>(
    service: Service<D, O, R>, w: World<D, O, R>, t: World<D, O, R>, p: nat, revision: Uuid)
    requires p < |w.clients| && w.clients[p].Deciding?
  {
    var c := w.clients[p];
    && p < |t.clients| && t.clients[p].Free? && OneMore(w.done, t.done)
    && TellsResult(t.done[|w.done|], p, c.op, c.draw, c.result)
    && Disks.Current(t.fs.disk) == Some(Object(service.codec.text(c.doc), UuidText(revision)))
  }

  lemma {:induction false} WriteUndisturbed<D(!new), O, R>(
    service: Service<D, O, R>, past: seq<Entry<O, R>>, worlds: seq<World<D, O, R>>, moves: seq<Move<O>>,
    p: nat, revision: Uuid, name: Uuid)
    returns (more: seq<World<D, O, R>>, acts: seq<Move<O>>)
    requires WorldRun(service, past, worlds, moves) && MayReplace(service, worlds[|moves|], p)
    requires var s := worlds[|moves|].fs; revision !in s.drawn && name !in s.disk.temporaries
    ensures WorldRun(service, past, more, acts) && worlds <= more && moves <= acts
    ensures HasWritten(service, worlds[|moves|], more[|acts|], p, revision)
  {
    var w := worlds[|moves|];
    more, acts := StartReplace(service, past, worlds, moves, p, revision);
    more, acts := FillReplace(service, past, more, acts, w, p, name);
    more, acts := FinishReplace(service, past, more, acts, w, p);
    ReadsTheObject(service, past, more, acts);
  }

  lemma {:induction false} ReadWhole<D(!new), O, R>(
    service: Service<D, O, R>, past: seq<Entry<O, R>>, worlds: seq<World<D, O, R>>, moves: seq<Move<O>>,
    p: nat, op: O, draw: Uuid, revision: Uuid)
    returns (more: seq<World<D, O, R>>, acts: seq<Move<O>>)
    requires WorldRun(service, past, worlds, moves) && AtRest(worlds[|moves|], p)
    requires draw !in worlds[|moves|].drawn && service.sys.early(op).None? && revision !in worlds[|moves|].fs.drawn
    ensures WorldRun(service, past, more, acts) && worlds <= more && moves <= acts
    ensures HasRead(service, worlds[|moves|], more[|acts|], p, op, draw)
    ensures Disks.ReadTarget(worlds[|moves|].fs.disk) == Ok(Disks.Current(worlds[|moves|].fs.disk))
  {
    var w := worlds[|moves|];
    ReadsTheObject(service, past, worlds, moves);
    more, acts := StartRead(service, past, worlds, moves, p, op, draw);
    more, acts := Look(service, past, more, acts, w, p, op, draw, revision);
    more, acts := Decides(service, past, more, acts, w, p, op, draw);
  }

  lemma {:induction false} PutIsReady<D, O, R>(
    service: Service<D, O, R>, w: World<D, O, R>, u: World<D, O, R>, p: nat, op: O, draw: Uuid)
    requires HasRead(service, w, u, p, op, draw) && u.clients[p].Deciding?
    requires Disks.ReadTarget(w.fs.disk) == Ok(Disks.Current(w.fs.disk))
    requires var verdict := Verdict(service, Disks.Current(w.fs.disk), op, draw);
             verdict.Some? && verdict.value.Put? ==> |service.codec.text(verdict.value.doc)| <= U64_MAX
    ensures MayReplace(service, u, p)
  {
  }

  lemma {:induction false} PutIsServed<D, O, R>(
    service: Service<D, O, R>, w: World<D, O, R>, u: World<D, O, R>, t: World<D, O, R>, p: nat, op: O, draw: Uuid,
    revision: Uuid)
    requires HasRead(service, w, u, p, op, draw) && u.clients[p].Deciding? && HasWritten(service, u, t, p, revision)
    ensures Served(service, w, t, p, op, draw, revision)
  {
  }

  /** From every reachable state in which the lock is free, a call that nobody disturbs comes to an end: its client
      is told that there is no object, or what the call decides on the stored document, which is then
      replaced by the new one if the call writes. */
  lemma {:induction false} UndisturbedCall<D(!new), O, R>(
    service: Service<D, O, R>, past: seq<Entry<O, R>>, worlds: seq<World<D, O, R>>, moves: seq<Move<O>>,
    p: nat, op: O, draw: Uuid, revision: Uuid, name: Uuid)
    returns (more: seq<World<D, O, R>>, acts: seq<Move<O>>)
    requires WorldRun(service, past, worlds, moves) && AtRest(worlds[|moves|], p)
    requires draw !in worlds[|moves|].drawn && service.sys.early(op).None?
    requires var s := worlds[|moves|].fs; revision !in s.drawn && name !in s.disk.temporaries
    requires var verdict := Verdict(service, Disks.Current(worlds[|moves|].fs.disk), op, draw);
             verdict.Some? && verdict.value.Put? ==> |service.codec.text(verdict.value.doc)| <= U64_MAX
    ensures WorldRun(service, past, more, acts) && worlds <= more && moves <= acts
    ensures Served(service, worlds[|moves|], more[|acts|], p, op, draw, revision)
  {
    var w := worlds[|moves|];
    more, acts := ReadWhole(service, past, worlds, moves, p, op, draw, revision);
    var u := more[|acts|];
    if u.clients[p].Deciding? {
      PutIsReady(service, w, u, p, op, draw);
      more, acts := WriteUndisturbed(service, past, more, acts, p, revision, name);
      PutIsServed(service, w, u, more[|acts|], p, op, draw, revision);
    }
  }
}
