/** Clients of a structure on the filesystem store, step by step: each call reads through the store, decides,
    and replaces through the store, while other clients do the same and any process may die between any
    two steps of the store. */
module DurableClients {
  import opened Prelude
  import opened StoreContract
  import opened CasProtocol
  import Linearizability
  import opened FilesystemRefinement
  import opened FilesystemTraces
  import opened DurableStructures

  /** Where a client is inside its call. `seen` and `landed` are the places among the effects of its read and its
      replace, once they took effect. */
  datatype Client<+D, +O, +R> =
    | Free
    | Creating
    | Reading(op: O, draw: Uuid, call: nat, readAt: nat, seen: Option<nat>)
    | Deciding(op: O, draw: Uuid, call: nat, readAt: nat, snapshot: nat, expected: Version, doc: D, result: R)
    | Writing(op: O, draw: Uuid, call: nat, readAt: nat, snapshot: nat, expected: Version, doc: D, result: R,
              landed: Option<nat>)

  /** What a client was told: a reply, or that there is no object. */
  datatype Finished<+O, +R> =
    | Told(done: Done<O, R>)
    | NoObject(client: nat, call: nat, op: O, draw: Uuid, returnedAt: nat)

  /** `scripts` and `done` only record what happened. */
  datatype World<D, O, R> = World(
    fs: FS.State, clients: seq<Client<D, O, R>>, scripts: seq<Script<O>>, drawn: set<Uuid>, done: seq<Finished<O, R>>)

  /** A client makes a call, which starts with its read, or something else happens at the store. */
  datatype Move<+O> =
    | Call(process: nat, op: O, draw: Uuid)
    | Go(action: FS.Action)

  function ActionOf<O>(m: Move<O>): FS.Action {
    match m
    case Call(p, _, _) => FS.Start(p, Get)
    case Go(a) => a
  }

  predicate Active<D, O, R>(c: Client<D, O, R>) {
    c.Reading? || c.Deciding? || c.Writing?
  }

  function SnapshotOf<D, O, R>(c: Client<D, O, R>): Option<nat> {
    match c
    case Reading(_, _, _, _, seen) => seen
    case Deciding(_, _, _, _, g, _, _, _) => Some(g)
    case Writing(_, _, _, _, g, _, _, _, _) => Some(g)
    case _ => None
  }

  function DrawOf<O, R>(f: Finished<O, R>): Uuid {
    if f.Told? then f.done.draw else f.draw
  }

  function CallOf<O, R>(f: Finished<O, R>): nat {
    if f.Told? then f.done.call else f.call
  }

  // --- The machine ---

  /** The calls of `past` are over at time `clock`. */
  ghost predicate IsPast<O, R>(past: seq<Entry<O, R>>, clock: nat) {
    && (forall i :: 0 <= i < |past| ==> past[i].call <= past[i].at < clock)
    && forall i, j :: 0 <= i < j < |past| ==> past[i].at < past[j].at && past[i].call != past[j].call
  }

  ghost predicate Begins<D(!new), O, R>(service: Service<D, O, R>, w: World<D, O, R>, past: seq<Entry<O, R>>) {
    && FS.Init(w.fs) && |w.clients| == |w.fs.pcs| && w.scripts == [] && w.done == []
    && (forall p :: 0 <= p < |w.clients| ==> w.clients[p].Free?)
    && Lossless(service.codec) && Legal(service.sys, service.empty, past)
    && Stores(service, Disks.Current(w.fs.disk), past)
    && DistinctDraws(past) && (forall e <- past :: e.draw in w.drawn) && IsPast(past, w.fs.clock)
  }

  /** A client starts only the creation of an empty document, or the replace it has decided on. */
  ghost predicate MayStart<D, O, R>(service: Service<D, O, R>, c: Client<D, O, R>, op: FS.Op) {
    || (c.Free? && op == StoreOp.Create(service.codec.text(service.empty)))
    || (c.Deciding? && op == StoreOp.Replace(c.expected, service.codec.text(c.doc)))
  }

  ghost predicate Allowed<D, O, R>(service: Service<D, O, R>, w: World<D, O, R>, m: Move<O>) {
    && ActionOf(m).process < |w.clients| == |w.fs.pcs|
    && match m
       case Call(p, op, draw) => w.clients[p].Free? && draw !in w.drawn && service.sys.early(op).None?
       case Go(a) => a.Start? ==> MayStart(service, w.clients[a.process], a.op)
  }

  ghost function ScriptOf<D, O, R>(c: Client<D, O, R>, place: nat): Script<O> {
    match c
    case Reading(op, draw, call, _, _) => Script(op, draw, call, place)
    case Writing(op, draw, call, _, g, _, _, _, _) => Script(op, draw, call, g)
    case _ => Aside
  }

  ghost function Started<D, O, R>(c: Client<D, O, R>): Client<D, O, R> {
    match c
    case Deciding(op, draw, call, readAt, g, expected, doc, result) =>
      Writing(op, draw, call, readAt, g, expected, doc, result, None)
    case _ => Creating
  }

  ghost function Landed<D, O, R>(c: Client<D, O, R>, place: nat, clock: nat): Client<D, O, R> {
    match c
    case Reading(op, draw, call, _, _) => Reading(op, draw, call, clock, Some(place))
    case Writing(op, draw, call, readAt, g, expected, doc, result, _) =>
      Writing(op, draw, call, readAt, g, expected, doc, result, Some(place))
    case _ => c
  }

  /** Where the store's answer takes the client, and what it is told, if its call is over. */
  ghost function Receive<D, O, R>(service: Service<D, O, R>, p: nat, c: Client<D, O, R>, answer: FS.Answer, clock: nat)
    : (Client<D, O, R>, seq<Finished<O, R>>)
  {
    match c
    case Reading(op, draw, call, readAt, seen) =>
      if answer.Found? && answer.found.None? then (Free, [NoObject(p, call, op, draw, clock)])
      else if answer.Found? && seen.Some? then (
        match service.sys.Decide(service.codec.parse(answer.found.value.bytes), op, draw)
        case Keep(result) => (Free, [Told(Done(p, call, op, draw, Returned(result), readAt, clock))])
        case Put(doc, result) =>
          (Deciding(op, draw, call, readAt, seen.value, answer.found.value.version, doc, result), [])
      )
      else (Free, [Told(Done(p, call, op, draw, StoreFailed, readAt, clock))])
    case Writing(op, draw, call, readAt, _, expected, _, result, _) =>
      var reply :=
        match answer
        case Wrote(_) => Returned(result)
        case Conflict(observed) => Conflicted(expected, observed)
        case _ => StoreFailed;
      (Free, [Told(Done(p, call, op, draw, reply, readAt, clock))])
    case _ => (Free, [])
  }

  /** What move `m` makes of the world, when it makes `t` of the store. */
  ghost function WorldAfter<D, O, R>(
    service: Service<D, O, R>, w: World<D, O, R>, m: Move<O>, t: FS.State): World<D, O, R>
    requires ActionOf(m).process < |w.clients|
  {
    var p := ActionOf(m).process;
    var c := w.clients[p];
    match m
    case Call(_, op, draw) =>
      w.(fs := t, clients := w.clients[p := Reading(op, draw, w.fs.clock, 0, None)], drawn := w.drawn + {draw})
    case Go(a) =>
      if a.Start? then w.(fs := t, clients := w.clients[p := Started(c)])
      else if t.effects != w.fs.effects then
        w.(fs := t, clients := w.clients[p := Landed(c, |w.fs.effects|, w.fs.clock)],
           scripts := w.scripts + [ScriptOf(c, |w.fs.effects|)])
      else if |t.done| > |w.fs.done| then
        var (next, told) := Receive(service, p, c, t.done[|w.fs.done|].answer, w.fs.clock);
        w.(fs := t, clients := w.clients[p := next], done := w.done + told)
      else if a.Die? then w.(fs := t, clients := w.clients[p := Free])
      else w.(fs := t)
  }

  ghost predicate WorldRun<D(!new), O, R>(
    service: Service<D, O, R>, past: seq<Entry<O, R>>, worlds: seq<World<D, O, R>>, moves: seq<Move<O>>)
  {
    && |worlds| == |moves| + 1 && Begins(service, worlds[0], past)
    && forall i :: 0 <= i < |moves| ==> StoreNextAt(worlds, moves, i) && ClientNextAt(service, worlds, moves, i)
  }

  ghost predicate StoreNextAt<D, O, R>(worlds: seq<World<D, O, R>>, moves: seq<Move<O>>, i: nat)
    requires i < |moves| && i + 1 < |worlds|
  {
    && FS.Enabled(worlds[i].fs, ActionOf(moves[i]))
    && worlds[i + 1].fs == FS.Step(worlds[i].fs, ActionOf(moves[i]))
  }

  ghost predicate ClientNextAt<D, O, R>(
    service: Service<D, O, R>, worlds: seq<World<D, O, R>>, moves: seq<Move<O>>, i: nat)
    requires i < |moves| && i + 1 < |worlds|
  {
    && Allowed(service, worlds[i], moves[i])
    && worlds[i + 1] == WorldAfter(service, worlds[i], moves[i], worlds[i + 1].fs)
  }

  // --- The store underneath ---

  ghost function StoresOf<D, O, R>(worlds: seq<World<D, O, R>>): seq<FS.State> {
    seq(|worlds|, i requires 0 <= i < |worlds| => worlds[i].fs)
  }

  ghost function ActionsOf<O>(moves: seq<Move<O>>): seq<FS.Action> {
    seq(|moves|, i requires 0 <= i < |moves| => ActionOf(moves[i]))
  }

  /** What happens at the store is a run of the store. */
  lemma {:induction false} StoreRuns<D(!new), O, R>(
    service: Service<D, O, R>, past: seq<Entry<O, R>>, worlds: seq<World<D, O, R>>, moves: seq<Move<O>>)
    requires WorldRun(service, past, worlds, moves)
    ensures FS.Run(StoresOf(worlds), ActionsOf(moves))
  {
    StoreStepsRun(worlds, moves);
  }

  lemma {:induction false} StoreStepsRun<D, O, R>(worlds: seq<World<D, O, R>>, moves: seq<Move<O>>)
    requires |worlds| == |moves| + 1 && FS.Init(worlds[0].fs)
    requires forall i :: 0 <= i < |moves| ==> StoreNextAt(worlds, moves, i)
    ensures FS.Run(StoresOf(worlds), ActionsOf(moves))
  {
    var states, actions := StoresOf(worlds), ActionsOf(moves);
    forall i | 0 <= i < |actions|
      ensures FS.Enabled(states[i], actions[i]) && states[i + 1] == FS.Step(states[i], actions[i])
    {
      assert StoreNextAt(worlds, moves, i);
    }
  }

  /** What one step does at the store, as far as clients can tell. */
  ghost predicate StoreMoves(s: FS.State, t: FS.State, a: FS.Action) {
    EffectShape(s, t, a) && CallsShape(s, t, a) && ProcessMoves(s, t, a) && DoneMoves(s, t, a)
  }

  ghost predicate ProcessMoves(s: FS.State, t: FS.State, a: FS.Action) {
    var p := a.process;
    && p < |s.pcs| && |t.pcs| == |s.pcs| && t.clock == s.clock + 1
    && (forall q :: 0 <= q < |s.pcs| && q != p ==> t.pcs[q] == s.pcs[q])
    && (if a.Start? then s.pcs[p].Idle? && !t.pcs[p].Idle? && t.effects == s.effects else !s.pcs[p].Idle?)
    && (t.effects != s.effects ==> !t.pcs[p].Idle?)
  }

  /** A process becomes idle by returning or by dying. */
  ghost predicate DoneMoves(s: FS.State, t: FS.State, a: FS.Action)
    requires a.process < |s.pcs| == |t.pcs|
  {
    var p := a.process;
    if t.done == s.done then t.pcs[p].Idle? <==> a.Die?
    else
      && !s.pcs[p].Idle? && t.pcs[p].Idle? && !a.Die?
      && |t.done| == |s.done| + 1 && t.done == s.done + [t.done[|s.done|]]
      && var d := t.done[|s.done|];
         d.process == p && d.call == s.pcs[p].call && d.op == s.pcs[p].op && d.returnedAt == s.clock
  }

  lemma {:induction false} StepMovesProcess(s: FS.State, a: FS.Action)
    requires FS.Enabled(s, a)
    ensures ProcessMoves(s, FS.Step(s, a), a)
  {
  }

  lemma {:induction false} StepMovesDone(s: FS.State, a: FS.Action)
    requires FS.Enabled(s, a)
    ensures a.process < |s.pcs| == |FS.Step(s, a).pcs| && DoneMoves(s, FS.Step(s, a), a)
  {
  }

  lemma {:induction false} StoreStep(s: FS.State, a: FS.Action)
    requires FS.Enabled(s, a)
    ensures StoreMoves(s, FS.Step(s, a), a)
  {
    StepTakesEffect(s, a);
    CallsGoOn(s, a);
    StepMovesProcess(s, a);
    StepMovesDone(s, a);
  }

  /** A move, with the store's step reduced to what clients can tell. */
  ghost predicate Moved<D, O, R>(service: Service<D, O, R>, w: World<D, O, R>, u: World<D, O, R>, m: Move<O>) {
    Allowed(service, w, m) && u == WorldAfter(service, w, m, u.fs) && StoreMoves(w.fs, u.fs, ActionOf(m))
  }

  ghost predicate MovedAt<D, O, R>(service: Service<D, O, R>, worlds: seq<World<D, O, R>>, moves: seq<Move<O>>, i: nat)
    requires i < |moves| && i + 1 < |worlds|
  {
    Moved(service, worlds[i], worlds[i + 1], moves[i])
  }

  lemma {:induction false} RunMoves<D(!new), O, R>(
    service: Service<D, O, R>, past: seq<Entry<O, R>>, worlds: seq<World<D, O, R>>, moves: seq<Move<O>>)
    requires WorldRun(service, past, worlds, moves)
    ensures forall i :: 0 <= i < |moves| ==> MovedAt(service, worlds, moves, i)
  {
    forall i | 0 <= i < |moves| ensures MovedAt(service, worlds, moves, i) {
      assert StoreNextAt(worlds, moves, i) && ClientNextAt(service, worlds, moves, i);
      StoreStep(worlds[i].fs, ActionOf(moves[i]));
    }
  }

  // --- The invariant ---

  /** The read of client `p` took effect at place `g`. */
  ghost predicate SnapshotOk<D, O, R>(
    effects: seq<FS.Effect>, scripts: seq<Script<O>>, p: nat, c: Client<D, O, R>, g: nat)
    requires Active(c)
  {
    && g < |effects| == |scripts| && scripts[g] == Script(c.op, c.draw, c.call, g)
    && effects[g].op.Get? && effects[g].process == p && effects[g].call == c.call && effects[g].at == c.readAt
  }

  /** Client `p` decided to write on what it read. */
  ghost predicate DecisionOk<D, O, R>(
    service: Service<D, O, R>, effects: seq<FS.Effect>, scripts: seq<Script<O>>, p: nat, c: Client<D, O, R>)
    requires c.Deciding? || c.Writing?
  {
    && SnapshotOk(effects, scripts, p, c, c.snapshot)
    && Finds(effects[c.snapshot]) && effects[c.snapshot].answer.found.value.version == c.expected
    && DecidedBy(service, effects, scripts[c.snapshot]) == Put(c.doc, c.result)
  }

  /** The replace of client `p`, call `call` at the store, took effect at place `j`. */
  ghost predicate LandedOk<D, O, R>(
    effects: seq<FS.Effect>, scripts: seq<Script<O>>, p: nat, c: Client<D, O, R>, call: nat, j: nat)
    requires c.Writing?
  {
    && c.snapshot < j < |effects| == |scripts| && scripts[j] == Script(c.op, c.draw, c.call, c.snapshot)
    && effects[j].op.Replace? && effects[j].process == p && effects[j].call == call
  }

  ghost predicate ClientOk<D, O, R>(
    service: Service<D, O, R>, effects: seq<FS.Effect>, scripts: seq<Script<O>>, p: nat, c: Client<D, O, R>, pc: FS.Pc)
  {
    match c
    case Free => pc.Idle?
    case Creating => !pc.Idle? && pc.op == StoreOp.Create(service.codec.text(service.empty))
    case Reading(_, _, call, _, seen) =>
      && !pc.Idle? && pc.op.Get? && pc.call == call
      && if seen.None? then NoEffect(effects, call) else SnapshotOk(effects, scripts, p, c, seen.value)
    case Deciding(_, _, _, _, _, _, _, _) => pc.Idle? && DecisionOk(service, effects, scripts, p, c)
    case Writing(_, _, _, _, _, expected, doc, _, landed) =>
      && !pc.Idle? && pc.op == StoreOp.Replace(expected, service.codec.text(doc))
      && DecisionOk(service, effects, scripts, p, c)
      && if landed.None? then NoEffect(effects, pc.call) else LandedOk(effects, scripts, p, c, pc.call, landed.value)
  }

  ghost predicate ClientsOk<D, O, R>(service: Service<D, O, R>, w: World<D, O, R>) {
    && |w.clients| == |w.fs.pcs|
    && forall p :: 0 <= p < |w.clients| ==>
                     ClientOk(service, w.fs.effects, w.scripts, p, w.clients[p], w.fs.pcs[p])
  }

  /** The script belongs to the call of this draw or this time of invocation. */
  predicate Mine<O>(x: Script<O>, draw: Uuid, call: nat) {
    x.Script? && (x.draw == draw || x.call == call)
  }

  /** Since its snapshot, client `p` had no other effect than the replace it is engaged in. */
  ghost predicate NothingSince<D, O, R>(effects: seq<FS.Effect>, p: nat, c: Client<D, O, R>) {
    SnapshotOf(c).Some? ==>
      forall i :: SnapshotOf(c).value < i < |effects| && effects[i].process == p ==> c.Writing? && c.landed == Some(i)
  }

  /** The scripts of the call of client `c` are those of its snapshot. */
  ghost predicate OwnScripts<D, O, R>(scripts: seq<Script<O>>, c: Client<D, O, R>)
    requires Active(c)
  {
    forall i :: 0 <= i < |scripts| && Mine(scripts[i], c.draw, c.call) ==> SnapshotOf(c) == Some(scripts[i].snapshot)
  }

  /** Calls in progress have their own draws and names. */
  ghost predicate CallsOwned<D, O, R>(w: World<D, O, R>) {
    && (forall p :: 0 <= p < |w.clients| && Active(w.clients[p]) ==>
                      w.clients[p].draw in w.drawn && w.clients[p].call < w.fs.clock)
    && (forall p, q :: 0 <= p < q < |w.clients| && Active(w.clients[p]) && Active(w.clients[q]) ==>
                         w.clients[p].draw != w.clients[q].draw && w.clients[p].call != w.clients[q].call)
    && (forall p :: 0 <= p < |w.clients| && Active(w.clients[p]) ==> OwnScripts(w.scripts, w.clients[p]))
    && forall p :: 0 <= p < |w.clients| ==> NothingSince(w.fs.effects, p, w.clients[p])
  }

  /** What a script says about its effect. */
  ghost predicate ScriptOk<O>(effects: seq<FS.Effect>, scripts: seq<Script<O>>, i: nat, drawn: set<Uuid>, clock: nat)
    requires i < |effects| == |scripts|
  {
    scripts[i].Script? ==>
      && scripts[i].draw in drawn && scripts[i].call <= effects[i].at && scripts[i].call < clock
      && scripts[i].snapshot <= i
      && effects[scripts[i].snapshot].process == effects[i].process
      && effects[scripts[i].snapshot].call == scripts[i].call
  }

  /** Calls that took effect have their own draws and names, and replace at most once. */
  ghost predicate ScriptsOwned<O>(effects: seq<FS.Effect>, scripts: seq<Script<O>>)
    requires |effects| == |scripts|
  {
    && (forall i, j :: 0 <= i < |scripts| && 0 <= j < |scripts| && scripts[i].Script?
                       && Mine(scripts[j], scripts[i].draw, scripts[i].call) ==>
                         scripts[i].snapshot == scripts[j].snapshot)
    && forall i, j :: 0 <= i < j < |scripts| && scripts[i].Script? && scripts[j].Script?
                      && effects[i].op.Replace? && effects[j].op.Replace? ==>
                        scripts[i].snapshot != scripts[j].snapshot
  }

  ghost predicate ScriptsOk<D, O, R>(service: Service<D, O, R>, w: World<D, O, R>) {
    && Scripted(service, w.fs.effects, w.scripts)
    && (forall i :: 0 <= i < |w.scripts| ==> ScriptOk(w.fs.effects, w.scripts, i, w.drawn, w.fs.clock))
    && ScriptsOwned(w.fs.effects, w.scripts)
  }

  // --- What clients were told ---

  /** No call of this draw or name took effect. */
  ghost predicate NoEntry<D, O, R>(
    service: Service<D, O, R>, effects: seq<FS.Effect>, scripts: seq<Script<O>>, draw: Uuid, call: nat)
    requires |effects| == |scripts|
  {
    forall i :: 0 <= i < |effects| && Mine(scripts[i], draw, call) ==> !Enters(service, effects, scripts, i)
  }

  /** Effect `i` is that of the call that was told `result`. */
  ghost predicate TookEffectAt<D, O, R>(
    service: Service<D, O, R>, effects: seq<FS.Effect>, scripts: seq<Script<O>>, d: Done<O, R>, result: R, i: int)
    requires |effects| == |scripts|
  {
    && 0 <= i < |effects| && Enters(service, effects, scripts, i)
    && effects[i].process == d.client && scripts[i] == Script(d.op, d.draw, d.call, scripts[i].snapshot)
    && DecidedBy(service, effects, scripts[i]).result == result
    && d.call <= effects[i].at <= d.returnedAt
  }

  /** Another client's write between the read and the return of a call. */
  ghost predicate OvertakenAt(effects: seq<FS.Effect>, client: nat, readAt: nat, returnedAt: nat, i: int) {
    && 0 <= i < |effects| && Mutates(effects[i]) && effects[i].process != client
    && readAt < effects[i].at < returnedAt
  }

  /** Whatever the failed call did, it was its write. */
  ghost predicate OnlyWrote<O, R>(effects: seq<FS.Effect>, scripts: seq<Script<O>>, d: Done<O, R>, i: nat)
    requires i < |effects| == |scripts|
  {
    && Mutates(effects[i]) && scripts[i].Script? && scripts[i].op == d.op && scripts[i].draw == d.draw
    && effects[i].process == d.client && d.call <= effects[i].at <= d.returnedAt
  }

  ghost predicate ReplyOk<D, O, R>(
    service: Service<D, O, R>, effects: seq<FS.Effect>, scripts: seq<Script<O>>, d: Done<O, R>)
    requires |effects| == |scripts|
  {
    match d.reply
    case Returned(result) => exists i :: TookEffectAt(service, effects, scripts, d, result, i)
    case Conflicted(_, _) =>
      && d.call <= d.readAt && NoEntry(service, effects, scripts, d.draw, d.call)
      && exists i :: OvertakenAt(effects, d.client, d.readAt, d.returnedAt, i)
    case StoreFailed =>
      forall i :: 0 <= i < |effects| && Mine(scripts[i], d.draw, d.call) && Enters(service, effects, scripts, i) ==>
                    OnlyWrote(effects, scripts, d, i)
  }

  ghost predicate FinishedOk<D, O, R>(
    service: Service<D, O, R>, effects: seq<FS.Effect>, scripts: seq<Script<O>>, f: Finished<O, R>)
    requires |effects| == |scripts|
  {
    match f
    case NoObject(_, call, _, draw, _) => NoEntry(service, effects, scripts, draw, call)
    case Told(d) => ReplyOk(service, effects, scripts, d)
  }

  ghost predicate AllFinishedOk<D, O, R>(service: Service<D, O, R>, w: World<D, O, R>)
    requires |w.fs.effects| == |w.scripts|
  {
    forall f <- w.done :: FinishedOk(service, w.fs.effects, w.scripts, f)
  }

  /** Finished calls share neither draw nor name with calls in progress. */
  ghost predicate FinishedApart<D, O, R>(w: World<D, O, R>) {
    && (forall f <- w.done :: DrawOf(f) in w.drawn && CallOf(f) < w.fs.clock)
    && forall f, p :: f in w.done && 0 <= p < |w.clients| && Active(w.clients[p]) ==>
                        DrawOf(f) != w.clients[p].draw && CallOf(f) != w.clients[p].call
  }

  ghost predicate WorldOk<D, O, R>(service: Service<D, O, R>, w: World<D, O, R>) {
    ScriptsOk(service, w) && ClientsOk(service, w) && CallsOwned(w) && FinishedApart(w) && AllFinishedOk(service, w)
  }

  // --- Moves that add no effect ---

  /** Only client `p` has moved: it is inactive, or in the same call with the same snapshot, or in a new call. */
  ghost predicate ClientMoved<D, O, R>(w: World<D, O, R>, u: World<D, O, R>, p: nat) {
    && p < |w.clients| == |w.fs.pcs| && |u.clients| == |w.clients| == |u.fs.pcs|
    && (forall q :: 0 <= q < |w.clients| && q != p ==> u.clients[q] == w.clients[q] && u.fs.pcs[q] == w.fs.pcs[q])
    && u.fs.effects == w.fs.effects && u.scripts == w.scripts && u.fs.clock == w.fs.clock + 1 && w.drawn <= u.drawn
    && (|| !Active(u.clients[p])
        || (Active(w.clients[p]) && SameCall(w.clients[p], u.clients[p]))
        || (u.clients[p].Reading? && u.clients[p].seen.None? && u.clients[p].call == w.fs.clock
            && u.clients[p].draw !in w.drawn && u.clients[p].draw in u.drawn))
  }

  ghost predicate SameCall<D, O, R>(c: Client<D, O, R>, d: Client<D, O, R>)
    requires Active(c) && Active(d)
  {
    && d.draw == c.draw && d.call == c.call && SnapshotOf(d) == SnapshotOf(c)
    && (c.Writing? ==> d.Writing? && d.landed == c.landed)
  }

  lemma {:induction false} ClientMovedKeepsClients<D, O, R>(
    service: Service<D, O, R>, w: World<D, O, R>, u: World<D, O, R>, p: nat)
    requires ClientMoved(w, u, p) && ClientsOk(service, w)
    requires ClientOk(service, u.fs.effects, u.scripts, p, u.clients[p], u.fs.pcs[p])
    ensures ClientsOk(service, u)
  {
  }

  lemma {:induction false} ClientMovedKeepsScripts<D, O, R>(
    service: Service<D, O, R>, w: World<D, O, R>, u: World<D, O, R>, p: nat)
    requires ClientMoved(w, u, p) && ScriptsOk(service, w)
    ensures ScriptsOk(service, u)
  {
    forall i | 0 <= i < |u.scripts| ensures ScriptOk(u.fs.effects, u.scripts, i, u.drawn, u.fs.clock) {
      assert ScriptOk(w.fs.effects, w.scripts, i, w.drawn, w.fs.clock);
    }
  }

  lemma {:induction false} ClientMovedKeepsOwners<D, O, R>(
    service: Service<D, O, R>, w: World<D, O, R>, u: World<D, O, R>, p: nat)
    requires ClientMoved(w, u, p) && CallsOwned(w) && ScriptsOk(service, w)
    ensures CallsOwned(u)
  {
    forall q | 0 <= q < |u.clients| && Active(u.clients[q]) ensures OwnScripts(u.scripts, u.clients[q]) {
      if Active(w.clients[q]) && (q != p || SameCall(w.clients[p], u.clients[p])) {
        assert OwnScripts(w.scripts, w.clients[q]);
      } else {
        forall i | 0 <= i < |w.scripts| ensures !Mine(w.scripts[i], u.clients[p].draw, u.clients[p].call) {
          assert ScriptOk(w.fs.effects, w.scripts, i, w.drawn, w.fs.clock);
        }
      }
    }
    forall q | 0 <= q < |u.clients| ensures NothingSince(u.fs.effects, q, u.clients[q]) {
      assert NothingSince(w.fs.effects, q, w.clients[q]);
    }
  }

  lemma {:induction false} ClientMovedKeepsFinished<D, O, R>(
    service: Service<D, O, R>, w: World<D, O, R>, u: World<D, O, R>, p: nat, told: seq<Finished<O, R>>)
    requires ClientMoved(w, u, p) && FinishedApart(w) && CallsOwned(w) && |w.fs.effects| == |w.scripts|
    requires AllFinishedOk(service, w) && u.done == w.done + told
    requires forall f <- told :: FinishedOk(service, u.fs.effects, u.scripts, f)
    requires told != [] ==> !Active(u.clients[p]) && Active(w.clients[p])
    requires forall f <- told :: DrawOf(f) == w.clients[p].draw && CallOf(f) == w.clients[p].call
    ensures FinishedApart(u) && AllFinishedOk(service, u)
  {
    forall f | f in u.done ensures FinishedOk(service, u.fs.effects, u.scripts, f) {
      if f in w.done { assert FinishedOk(service, w.fs.effects, w.scripts, f); }
    }
  }

  // --- Moves by which a call has an effect ---

  /** Effect `e` of client `p`, and nothing else. */
  ghost predicate Lands<D, O, R>(w: World<D, O, R>, u: World<D, O, R>, p: nat, e: FS.Effect) {
    && p < |w.clients| == |w.fs.pcs| && |u.clients| == |w.clients| == |u.fs.pcs|
    && (forall q :: 0 <= q < |w.clients| && q != p ==> u.clients[q] == w.clients[q] && u.fs.pcs[q] == w.fs.pcs[q])
    && !w.fs.pcs[p].Idle? && !u.fs.pcs[p].Idle?
    && u.fs.pcs[p].op == w.fs.pcs[p].op && u.fs.pcs[p].call == w.fs.pcs[p].call
    && e.process == p && e.op == w.fs.pcs[p].op && e.call == w.fs.pcs[p].call && e.at == w.fs.clock
    && u.fs.effects == w.fs.effects + [e] && u.scripts == w.scripts + [ScriptOf(w.clients[p], |w.fs.effects|)]
    && u.clients[p] == Landed(w.clients[p], |w.fs.effects|, w.fs.clock)
    && u.fs.clock == w.fs.clock + 1 && u.drawn == w.drawn && u.done == w.done
    && NoEffect(w.fs.effects, e.call)
    && forall q :: 0 <= q < |w.fs.pcs| && q != p && !w.fs.pcs[q].Idle? ==> w.fs.pcs[q].call != e.call
  }

  /** Its call had no effect before. */
  lemma {:induction false} WhoLands<D, O, R>(
    service: Service<D, O, R>, w: World<D, O, R>, u: World<D, O, R>, p: nat, e: FS.Effect)
    requires Lands(w, u, p, e) && ClientsOk(service, w)
    ensures var c := w.clients[p];
            c.Creating? || (c.Reading? && c.seen.None?) || (c.Writing? && c.landed.None?)
  {
    assert ClientOk(service, w.fs.effects, w.scripts, p, w.clients[p], w.fs.pcs[p]);
  }

  lemma {:induction false} FollowsStill<D, O, R>(
    service: Service<D, O, R>, effects: seq<FS.Effect>, scripts: seq<Script<O>>, e: FS.Effect, x: Script<O>, i: nat)
    requires i < |effects| == |scripts| && Follows(service, effects, scripts, i)
    ensures Follows(service, effects + [e], scripts + [x], i)
  {
  }

  lemma {:induction false} EntersStill<D, O, R>(
    service: Service<D, O, R>, effects: seq<FS.Effect>, scripts: seq<Script<O>>, e: FS.Effect, x: Script<O>, i: nat)
    requires i < |effects| == |scripts| && (scripts[i].Script? ==> scripts[i].snapshot <= i)
    ensures Enters(service, effects + [e], scripts + [x], i) <==> Enters(service, effects, scripts, i)
    ensures Enters(service, effects, scripts, i) ==>
              DecidedBy(service, effects + [e], scripts[i]) == DecidedBy(service, effects, scripts[i])
  {
  }

  lemma {:induction false} ClientStill<D, O, R>(
    service: Service<D, O, R>, effects: seq<FS.Effect>, scripts: seq<Script<O>>, e: FS.Effect, x: Script<O>,
    q: nat, c: Client<D, O, R>, pc: FS.Pc)
    requires |effects| == |scripts| && ClientOk(service, effects, scripts, q, c, pc)
    requires !pc.Idle? ==> pc.call != e.call
    ensures ClientOk(service, effects + [e], scripts + [x], q, c, pc)
  {
  }

  lemma {:induction false} LandsKeepsClients<D, O, R>(
    service: Service<D, O, R>, w: World<D, O, R>, u: World<D, O, R>, p: nat, e: FS.Effect)
    requires Lands(w, u, p, e) && ClientsOk(service, w) && |w.fs.effects| == |w.scripts|
    ensures ClientsOk(service, u)
  {
    WhoLands(service, w, u, p, e);
    var x := ScriptOf(w.clients[p], |w.fs.effects|);
    forall q | 0 <= q < |u.clients|
      ensures ClientOk(service, u.fs.effects, u.scripts, q, u.clients[q], u.fs.pcs[q])
    {
      assert ClientOk(service, w.fs.effects, w.scripts, q, w.clients[q], w.fs.pcs[q]);
      if q != p { ClientStill(service, w.fs.effects, w.scripts, e, x, q, w.clients[q], w.fs.pcs[q]); }
    }
  }

  lemma {:induction false} LandsKeepsScripted<D, O, R>(
    service: Service<D, O, R>, w: World<D, O, R>, u: World<D, O, R>, p: nat, e: FS.Effect)
    requires Lands(w, u, p, e) && ClientsOk(service, w) && Scripted(service, w.fs.effects, w.scripts)
    ensures Scripted(service, u.fs.effects, u.scripts)
  {
    WhoLands(service, w, u, p, e);
    var x := ScriptOf(w.clients[p], |w.fs.effects|);
    forall i | 0 <= i < |u.fs.effects| ensures Follows(service, u.fs.effects, u.scripts, i) {
      if i < |w.fs.effects| {
        FollowsStill(service, w.fs.effects, w.scripts, e, x, i);
      } else {
        assert ClientOk(service, w.fs.effects, w.scripts, p, w.clients[p], w.fs.pcs[p]);
      }
    }
  }

  lemma {:induction false} LandsKeepsScripts<D, O, R>(
    service: Service<D, O, R>, w: World<D, O, R>, u: World<D, O, R>, p: nat, e: FS.Effect)
    requires Lands(w, u, p, e) && ClientsOk(service, w) && ScriptsOk(service, w) && CallsOwned(w)
    ensures ScriptsOk(service, u)
  {
    LandsKeepsScripted(service, w, u, p, e);
    WhoLands(service, w, u, p, e);
    assert ClientOk(service, w.fs.effects, w.scripts, p, w.clients[p], w.fs.pcs[p]);
    forall i | 0 <= i < |u.scripts| ensures ScriptOk(u.fs.effects, u.scripts, i, u.drawn, u.fs.clock) {
      if i < |w.scripts| { assert ScriptOk(w.fs.effects, w.scripts, i, w.drawn, w.fs.clock); }
    }
    LandsKeepsScriptsOwned(service, w, u, p, e);
  }

  /** The new script shares its draw or name with those of its own snapshot only, and it is the first replace
      on that snapshot. */
  lemma {:induction false} LandsKeepsScriptsOwned<D, O, R>(
    service: Service<D, O, R>, w: World<D, O, R>, u: World<D, O, R>, p: nat, e: FS.Effect)
    requires Lands(w, u, p, e) && ClientsOk(service, w) && ScriptsOk(service, w) && CallsOwned(w)
    ensures ScriptsOwned(u.fs.effects, u.scripts)
  {
    var n, x := |w.scripts|, ScriptOf(w.clients[p], |w.fs.effects|);
    WhoLands(service, w, u, p, e);
    assert ClientOk(service, w.fs.effects, w.scripts, p, w.clients[p], w.fs.pcs[p]);
    assert NothingSince(w.fs.effects, p, w.clients[p]);
    forall j | 0 <= j < n && x.Script? && w.scripts[j].Script?
      ensures Mine(w.scripts[j], x.draw, x.call) ==> w.scripts[j].snapshot == x.snapshot
      ensures e.op.Replace? && w.fs.effects[j].op.Replace? ==> w.scripts[j].snapshot != x.snapshot
    {
      assert OwnScripts(w.scripts, w.clients[p]);
      assert ScriptOk(w.fs.effects, w.scripts, j, w.drawn, w.fs.clock);
      assert Follows(service, w.fs.effects, w.scripts, j);
    }
  }

  lemma {:induction false} LandsKeepsOwners<D, O, R>(
    service: Service<D, O, R>, w: World<D, O, R>, u: World<D, O, R>, p: nat, e: FS.Effect)
    requires Lands(w, u, p, e) && ClientsOk(service, w) && CallsOwned(w) && |w.fs.effects| == |w.scripts|
    ensures CallsOwned(u)
  {
    WhoLands(service, w, u, p, e);
    forall q | 0 <= q < |u.clients| && Active(u.clients[q]) ensures OwnScripts(u.scripts, u.clients[q]) {
      assert OwnScripts(w.scripts, w.clients[q]);
    }
    forall q | 0 <= q < |u.clients| ensures NothingSince(u.fs.effects, q, u.clients[q]) {
      assert NothingSince(w.fs.effects, q, w.clients[q]);
    }
  }

  lemma {:induction false} LandsKeepsFinished<D, O, R>(
    service: Service<D, O, R>, w: World<D, O, R>, u: World<D, O, R>, p: nat, e: FS.Effect)
    requires Lands(w, u, p, e) && WorldOk(service, w)
    ensures FinishedApart(u) && |u.fs.effects| == |u.scripts| && AllFinishedOk(service, u)
  {
    WhoLands(service, w, u, p, e);
    var x := ScriptOf(w.clients[p], |w.fs.effects|);
    forall f | f in u.done ensures FinishedOk(service, u.fs.effects, u.scripts, f) {
      assert FinishedOk(service, w.fs.effects, w.scripts, f);
      FinishedStill(service, w.fs.effects, w.scripts, e, x, f, w.drawn, w.fs.clock);
    }
  }

  lemma {:induction false} FinishedStill<D, O, R>(
    service: Service<D, O, R>, effects: seq<FS.Effect>, scripts: seq<Script<O>>, e: FS.Effect, x: Script<O>,
    f: Finished<O, R>, drawn: set<Uuid>, clock: nat)
    requires |effects| == |scripts| && FinishedOk(service, effects, scripts, f)
    requires forall i :: 0 <= i < |scripts| ==> ScriptOk(effects, scripts, i, drawn, clock)
    requires !Mine(x, DrawOf(f), CallOf(f))
    ensures FinishedOk(service, effects + [e], scripts + [x], f)
  {
    forall i | 0 <= i < |effects|
      ensures Enters(service, effects + [e], scripts + [x], i) <==> Enters(service, effects, scripts, i)
    {
      assert ScriptOk(effects, scripts, i, drawn, clock);
      EntersStill(service, effects, scripts, e, x, i);
    }
    if f.Told? { ReplyStill(service, effects, scripts, e, x, f.done, drawn, clock); }
  }

  lemma {:induction false} ReplyStill<D, O, R>(
    service: Service<D, O, R>, effects: seq<FS.Effect>, scripts: seq<Script<O>>, e: FS.Effect, x: Script<O>,
    d: Done<O, R>, drawn: set<Uuid>, clock: nat)
    requires |effects| == |scripts| && ReplyOk(service, effects, scripts, d)
    requires forall i :: 0 <= i < |scripts| ==> ScriptOk(effects, scripts, i, drawn, clock)
    requires forall i :: 0 <= i < |effects| ==>
                           (Enters(service, effects + [e], scripts + [x], i) <==> Enters(service, effects, scripts, i))
    requires !Mine(x, d.draw, d.call)
    ensures ReplyOk(service, effects + [e], scripts + [x], d)
  {
    match d.reply
    case Returned(result) =>
      var i :| TookEffectAt(service, effects, scripts, d, result, i);
      assert ScriptOk(effects, scripts, i, drawn, clock);
      EntersStill(service, effects, scripts, e, x, i);
      assert TookEffectAt(service, effects + [e], scripts + [x], d, result, i);
    case Conflicted(_, _) =>
      var i :| OvertakenAt(effects, d.client, d.readAt, d.returnedAt, i);
      assert OvertakenAt(effects + [e], d.client, d.readAt, d.returnedAt, i);
    case StoreFailed =>
  }

  // --- Moves by which a call gets its answer ---

  /** At the store: each call has at most one effect, and an answer is that of the effect, or a store error after
      no effect but a write. */
  ghost predicate AnswerFits(effects: seq<FS.Effect>, call: nat, op: FS.Op, answer: FS.Answer) {
    && (forall i, j :: 0 <= i < j < |effects| ==> effects[i].call != effects[j].call)
    && match answer
       case StoreError => forall i :: 0 <= i < |effects| && effects[i].call == call ==> effects[i].answer.Wrote?
       case _ => exists i :: Performed(effects, call, op, answer, i)
  }

  lemma {:induction false} AnswerOfEffect(effects: seq<FS.Effect>, call: nat, op: FS.Op, answer: FS.Answer, i: nat)
    requires AnswerFits(effects, call, op, answer) && i < |effects| && effects[i].call == call
    ensures effects[i].answer == answer || (answer.StoreError? && effects[i].answer.Wrote?)
  {
    if !answer.StoreError? {
      var j :| Performed(effects, call, op, answer, j);
      OneEffectPerCall(effects, i, j);
    }
  }

  lemma {:induction false} AnswerHasEffect(effects: seq<FS.Effect>, call: nat, op: FS.Op, answer: FS.Answer)
    requires AnswerFits(effects, call, op, answer) && !answer.StoreError?
    ensures !NoEffect(effects, call)
  {
    var j :| Performed(effects, call, op, answer, j);
  }

  /** The effects by which the call of an active client may have taken effect are those on its snapshot. */
  lemma {:induction false} EntryOnSnapshot<D, O, R>(
    service: Service<D, O, R>, effects: seq<FS.Effect>, scripts: seq<Script<O>>, c: Client<D, O, R>, i: nat)
    requires Scripted(service, effects, scripts) && Active(c) && OwnScripts(scripts, c)
    requires i < |effects| && Mine(scripts[i], c.draw, c.call)
    ensures SnapshotOf(c) == Some(scripts[i].snapshot) && scripts[i].snapshot <= i
    ensures effects[i].op.Get? ==> scripts[i].snapshot == i
    ensures effects[i].op.Get? || effects[i].op.Replace?
  {
    assert Follows(service, effects, scripts, i);
  }

  /** A read that did not find an object leaves no entry. */
  lemma {:induction false} ReadWithoutObject<D, O, R>(
    service: Service<D, O, R>, effects: seq<FS.Effect>, scripts: seq<Script<O>>, p: nat, c: Client<D, O, R>, pc: FS.Pc,
    answer: FS.Answer)
    requires Scripted(service, effects, scripts) && c.Reading? && OwnScripts(scripts, c)
    requires ClientOk(service, effects, scripts, p, c, pc) && AnswerFits(effects, pc.call, pc.op, answer)
    requires !(answer.Found? && answer.found.Some?)
    ensures NoEntry(service, effects, scripts, c.draw, c.call)
  {
    forall i | 0 <= i < |effects| && Mine(scripts[i], c.draw, c.call) ensures !Enters(service, effects, scripts, i) {
      EntryOnSnapshot(service, effects, scripts, c, i);
      AnswerOfEffect(effects, pc.call, pc.op, answer, c.seen.value);
    }
  }

  /** A read that found an object decides on it. */
  lemma {:induction false} ReadFound<D, O, R>(
    service: Service<D, O, R>, effects: seq<FS.Effect>, scripts: seq<Script<O>>, p: nat, c: Client<D, O, R>, pc: FS.Pc,
    answer: FS.Answer)
    requires |effects| == |scripts| && c.Reading? && ClientOk(service, effects, scripts, p, c, pc)
    requires AnswerFits(effects, pc.call, pc.op, answer) && answer.Found? && answer.found.Some?
    ensures c.seen.Some? && SnapshotOk(effects, scripts, p, c, c.seen.value)
    ensures effects[c.seen.value].answer == answer && Finds(effects[c.seen.value])
  {
    AnswerHasEffect(effects, pc.call, pc.op, answer);
    AnswerOfEffect(effects, pc.call, pc.op, answer, c.seen.value);
  }

  ghost predicate Received<D, O, R>(
    service: Service<D, O, R>, effects: seq<FS.Effect>, scripts: seq<Script<O>>, p: nat, c: Client<D, O, R>,
    next: Client<D, O, R>, told: seq<Finished<O, R>>)
    requires |effects| == |scripts|
  {
    && (next.Free? || (next.Deciding? && DecisionOk(service, effects, scripts, p, next)))
    && (Active(next) ==> Active(c) && SameCall(c, next) && told == [])
    && (told != [] ==> Active(c))
    && forall f <- told :: DrawOf(f) == c.draw && CallOf(f) == c.call && FinishedOk(service, effects, scripts, f)
  }

  lemma {:induction false} ReadReceived<D, O, R>(
    service: Service<D, O, R>, effects: seq<FS.Effect>, scripts: seq<Script<O>>, p: nat, c: Client<D, O, R>, pc: FS.Pc,
    answer: FS.Answer, drawn: set<Uuid>, clock: nat)
    requires Scripted(service, effects, scripts) && c.Reading? && OwnScripts(scripts, c)
    requires forall i :: 0 <= i < |scripts| ==> ScriptOk(effects, scripts, i, drawn, clock) && effects[i].at < clock
    requires ClientOk(service, effects, scripts, p, c, pc) && AnswerFits(effects, pc.call, pc.op, answer)
    ensures var (next, told) := Receive(service, p, c, answer, clock);
            Received(service, effects, scripts, p, c, next, told)
  {
    if answer.Found? && answer.found.Some? {
      ReadFound(service, effects, scripts, p, c, pc, answer);
      var g := c.seen.value;
      assert ScriptOk(effects, scripts, g, drawn, clock);
      match service.sys.Decide(service.codec.parse(answer.found.value.bytes), c.op, c.draw)
      case Put(_, _) =>
      case Keep(result) =>
        var d := Done(p, c.call, c.op, c.draw, Returned(result), c.readAt, clock);
        assert TookEffectAt(service, effects, scripts, d, result, g);
        assert ReplyOk(service, effects, scripts, d);
    } else {
      ReadWithoutObject(service, effects, scripts, p, c, pc, answer);
    }
  }

  /** Without a write the object stays, and once there it is never absent again. */
  lemma {:induction false} ObjectStays(init: FS.Stored, base: set<Version>, effects: seq<FS.Effect>, i: nat, j: nat)
    requires Proper(init, base, effects) && i <= j <= |effects|
    ensures PostAt(init, effects, i).Some? ==> PostAt(init, effects, j).Some?
    ensures PostAt(init, effects, j) == PostAt(init, effects, i) || exists k :: i <= k < j && effects[k].answer.Wrote?
  {
    if i < j {
      ObjectStays(init, base, effects, i, j - 1);
      assert AtomicAt(init, base, effects, j - 1);
      assert effects[j - 1] in effects;
    }
  }

  /** A refused replace was overtaken by another one since its snapshot. */
  lemma {:induction false} ConflictHasCause(
    init: FS.Stored, base: set<Version>, effects: seq<FS.Effect>, g: nat, j: nat)
    requires Proper(init, base, effects) && g < j < |effects| && Finds(effects[g])
    requires effects[j].op.Replace? && effects[j].answer.Conflict?
    requires effects[j].op.expected == effects[g].answer.found.value.version
    ensures exists k :: g < k < j && Mutates(effects[k])
  {
    assert AtomicAt(init, base, effects, g);
    assert AtomicAt(init, base, effects, j);
    ObjectStays(init, base, effects, g + 1, j);
    var k :| g + 1 <= k < j && effects[k].answer.Wrote?;
    assert AtomicAt(init, base, effects, k);
    ObjectStays(init, base, effects, g + 1, k);
    assert Mutates(effects[k]);
  }

  ghost predicate InOrder(effects: seq<FS.Effect>) {
    forall i, j :: 0 <= i < j < |effects| ==> effects[i].at < effects[j].at
  }

  /** Only the replace can be the entry of a call that decided to write. */
  lemma {:induction false} WriteEntry<D, O, R>(
    service: Service<D, O, R>, effects: seq<FS.Effect>, scripts: seq<Script<O>>, p: nat,
    c: Client<D, O, R>, pc: FS.Pc, i: nat)
    requires Scripted(service, effects, scripts) && ScriptsOwned(effects, scripts) && c.Writing?
    requires OwnScripts(scripts, c)
    requires ClientOk(service, effects, scripts, p, c, pc)
    requires i < |effects| && Mine(scripts[i], c.draw, c.call) && Enters(service, effects, scripts, i)
    ensures Mutates(effects[i]) && scripts[i] == Script(c.op, c.draw, c.call, c.snapshot)
    ensures c.landed.Some? ==> c.landed.value == i
  {
    EntryOnSnapshot(service, effects, scripts, c, i);
    assert Follows(service, effects, scripts, i);
    if c.landed.Some? {
      OneReplacePerSnapshot(effects, scripts, i, c.landed.value);
    }
  }

  lemma {:induction false} OneReplacePerSnapshot<O>(effects: seq<FS.Effect>, scripts: seq<Script<O>>, i: nat, j: nat)
    requires |effects| == |scripts| && ScriptsOwned(effects, scripts) && i < |effects| && j < |effects|
    requires scripts[i].Script? && scripts[j].Script? && effects[i].op.Replace? && effects[j].op.Replace?
    ensures scripts[i].snapshot == scripts[j].snapshot <==> i == j
  {
    if i < j {
      assert scripts[i].snapshot != scripts[j].snapshot;
    } else if j < i {
      assert scripts[j].snapshot != scripts[i].snapshot;
    }
  }

  /** What a client that asked for its replace is told is true. */
  lemma {:induction false} WriteReceived<D, O, R>(
    service: Service<D, O, R>, effects: seq<FS.Effect>, scripts: seq<Script<O>>, p: nat, c: Client<D, O, R>, pc: FS.Pc,
    answer: FS.Answer, drawn: set<Uuid>, clock: nat, init: FS.Stored, base: set<Version>)
    requires Scripted(service, effects, scripts) && ScriptsOwned(effects, scripts) && c.Writing?
    requires OwnScripts(scripts, c)
    requires forall i :: 0 <= i < |scripts| ==> ScriptOk(effects, scripts, i, drawn, clock) && effects[i].at < clock
    requires Proper(init, base, effects) && InOrder(effects) && NothingSince(effects, p, c)
    requires ClientOk(service, effects, scripts, p, c, pc) && AnswerFits(effects, pc.call, pc.op, answer)
    ensures var (next, told) := Receive(service, p, c, answer, clock);
            Received(service, effects, scripts, p, c, next, told)
  {
    var d := Receive(service, p, c, answer, clock).1[0].done;
    match answer
    case Wrote(_) => WriteLanded(service, effects, scripts, p, c, pc, answer, drawn, clock);
    case Conflict(_) => WriteRefused(service, effects, scripts, p, c, pc, answer, drawn, clock, init, base);
    case _ => WriteFailed(service, effects, scripts, p, c, pc, d, drawn, clock);
    assert ReplyOk(service, effects, scripts, d);
  }

  lemma {:induction false} WriteLanded<D, O, R>(
    service: Service<D, O, R>, effects: seq<FS.Effect>, scripts: seq<Script<O>>, p: nat, c: Client<D, O, R>, pc: FS.Pc,
    answer: FS.Answer, drawn: set<Uuid>, clock: nat)
    requires |effects| == |scripts| && c.Writing?
    requires forall i :: 0 <= i < |scripts| ==> ScriptOk(effects, scripts, i, drawn, clock) && effects[i].at < clock
    requires ClientOk(service, effects, scripts, p, c, pc) && AnswerFits(effects, pc.call, pc.op, answer)
    requires answer.Wrote?
    ensures ReplyOk(service, effects, scripts, Done(p, c.call, c.op, c.draw, Returned(c.result), c.readAt, clock))
  {
    AnswerHasEffect(effects, pc.call, pc.op, answer);
    var j := c.landed.value;
    AnswerOfEffect(effects, pc.call, pc.op, answer, j);
    assert ScriptOk(effects, scripts, j, drawn, clock);
    var d := Done(p, c.call, c.op, c.draw, Returned(c.result), c.readAt, clock);
    assert TookEffectAt(service, effects, scripts, d, c.result, j);
  }

  lemma {:induction false} WriteRefused<D, O, R>(
    service: Service<D, O, R>, effects: seq<FS.Effect>, scripts: seq<Script<O>>, p: nat, c: Client<D, O, R>, pc: FS.Pc,
    answer: FS.Answer, drawn: set<Uuid>, clock: nat, init: FS.Stored, base: set<Version>)
    requires Scripted(service, effects, scripts) && ScriptsOwned(effects, scripts) && c.Writing?
    requires OwnScripts(scripts, c)
    requires forall i :: 0 <= i < |scripts| ==> ScriptOk(effects, scripts, i, drawn, clock) && effects[i].at < clock
    requires Proper(init, base, effects) && InOrder(effects) && NothingSince(effects, p, c)
    requires ClientOk(service, effects, scripts, p, c, pc) && AnswerFits(effects, pc.call, pc.op, answer)
    requires answer.Conflict?
    ensures ReplyOk(service, effects, scripts,
                    Done(p, c.call, c.op, c.draw, Conflicted(c.expected, answer.current), c.readAt, clock))
  {
    AnswerHasEffect(effects, pc.call, pc.op, answer);
    var g, j := c.snapshot, c.landed.value;
    AnswerOfEffect(effects, pc.call, pc.op, answer, j);
    var i :| Performed(effects, pc.call, pc.op, answer, i);
    OneEffectPerCall(effects, i, j);
    ConflictHasCause(init, base, effects, g, j);
    var k :| g < k < j && Mutates(effects[k]);
    assert OvertakenAt(effects, p, c.readAt, clock, k);
    assert ScriptOk(effects, scripts, g, drawn, clock);
    forall l | 0 <= l < |effects| && Mine(scripts[l], c.draw, c.call) ensures !Enters(service, effects, scripts, l) {
      if Enters(service, effects, scripts, l) { WriteEntry(service, effects, scripts, p, c, pc, l); }
    }
  }

  lemma {:induction false} WriteFailed<D, O, R>(
    service: Service<D, O, R>, effects: seq<FS.Effect>, scripts: seq<Script<O>>, p: nat, c: Client<D, O, R>, pc: FS.Pc,
    d: Done<O, R>, drawn: set<Uuid>, clock: nat)
    requires Scripted(service, effects, scripts) && ScriptsOwned(effects, scripts) && c.Writing?
    requires OwnScripts(scripts, c)
    requires forall i :: 0 <= i < |scripts| ==> ScriptOk(effects, scripts, i, drawn, clock) && effects[i].at < clock
    requires ClientOk(service, effects, scripts, p, c, pc)
    requires d == Done(p, c.call, c.op, c.draw, StoreFailed, c.readAt, clock)
    ensures ReplyOk(service, effects, scripts, d)
  {
    forall i | 0 <= i < |effects| && Mine(scripts[i], d.draw, d.call) && Enters(service, effects, scripts, i)
      ensures OnlyWrote(effects, scripts, d, i)
    {
      WriteEntry(service, effects, scripts, p, c, pc, i);
      assert ScriptOk(effects, scripts, i, drawn, clock);
    }
  }

  // --- Every move ---

  /** What the refinement of the store says about its state. */
  ghost predicate StoreOk(s: FS.State, init: FS.Stored, base: set<Version>) {
    && Proper(init, base, s.effects) && InOrder(s.effects)
    && (forall i, j :: 0 <= i < j < |s.effects| ==> s.effects[i].call != s.effects[j].call)
    && (forall i :: 0 <= i < |s.effects| ==> s.effects[i].call <= s.effects[i].at < s.clock)
    && (forall p, q :: 0 <= p < q < |s.pcs| && !s.pcs[p].Idle? && !s.pcs[q].Idle? ==> s.pcs[p].call != s.pcs[q].call)
    && forall d <- s.done :: AnswerFits(s.effects, d.call, d.op, d.answer)
  }

  lemma {:induction false} CallStarts<D, O, R>(
    service: Service<D, O, R>, w: World<D, O, R>, u: World<D, O, R>, m: Move<O>, init: FS.Stored, base: set<Version>)
    requires Moved(service, w, u, m) && ActionOf(m).Start?
    requires WorldOk(service, w) && StoreOk(w.fs, init, base)
    ensures var p := ActionOf(m).process;
            && ClientMoved(w, u, p) && u.done == w.done
            && ClientOk(service, u.fs.effects, u.scripts, p, u.clients[p], u.fs.pcs[p])
  {
    var p := ActionOf(m).process;
    assert ClientOk(service, w.fs.effects, w.scripts, p, w.clients[p], w.fs.pcs[p]);
  }

  /** A step of the store between a call's start, its effect and its answer, or the death of its process. */
  lemma {:induction false} CallGoesOn<D, O, R>(
    service: Service<D, O, R>, w: World<D, O, R>, u: World<D, O, R>, m: Move<O>)
    requires Moved(service, w, u, m) && !ActionOf(m).Start?
    requires WorldOk(service, w) && StoreMoves(w.fs, u.fs, ActionOf(m))
    requires u.fs.effects == w.fs.effects && u.fs.done == w.fs.done
    ensures var p := ActionOf(m).process;
            && ClientMoved(w, u, p) && u.done == w.done
            && ClientOk(service, u.fs.effects, u.scripts, p, u.clients[p], u.fs.pcs[p])
  {
    var p := ActionOf(m).process;
    assert ClientOk(service, w.fs.effects, w.scripts, p, w.clients[p], w.fs.pcs[p]);
  }

  lemma {:induction false} CallLands<D, O, R>(
    service: Service<D, O, R>, w: World<D, O, R>, u: World<D, O, R>, m: Move<O>, init: FS.Stored, base: set<Version>)
    returns (e: FS.Effect)
    requires Moved(service, w, u, m) && u.fs.effects != w.fs.effects
    requires WorldOk(service, w) && StoreOk(w.fs, init, base) && StoreOk(u.fs, init, base)
    ensures Lands(w, u, ActionOf(m).process, e)
  {
    var n := |w.fs.effects|;
    e := u.fs.effects[n];
    forall i | 0 <= i < n ensures w.fs.effects[i].call != e.call {
      assert u.fs.effects[i].call != u.fs.effects[n].call;
    }
  }

  lemma {:induction false} CallAnswered<D, O, R>(
    service: Service<D, O, R>, w: World<D, O, R>, u: World<D, O, R>, m: Move<O>, init: FS.Stored, base: set<Version>)
    returns (told: seq<Finished<O, R>>)
    requires Moved(service, w, u, m) && u.fs.done != w.fs.done
    requires WorldOk(service, w) && StoreOk(w.fs, init, base) && StoreOk(u.fs, init, base)
    ensures var p := ActionOf(m).process;
            && ClientMoved(w, u, p) && ClientOk(service, u.fs.effects, u.scripts, p, u.clients[p], u.fs.pcs[p])
            && u.done == w.done + told
            && Received(service, u.fs.effects, u.scripts, p, w.clients[p], u.clients[p], told)
  {
    var p, d := ActionOf(m).process, u.fs.done[|w.fs.done|];
    var c, pc := w.clients[p], w.fs.pcs[p];
    assert d in u.fs.done && AnswerFits(w.fs.effects, d.call, d.op, d.answer);
    assert ClientOk(service, w.fs.effects, w.scripts, p, c, pc);
    told := Receive(service, p, c, d.answer, w.fs.clock).1;
    AnswerIsTrue(service, w, p, d.answer, init, base);
  }

  lemma {:induction false} AnswerIsTrue<D, O, R>(
    service: Service<D, O, R>, w: World<D, O, R>, p: nat, answer: FS.Answer, init: FS.Stored, base: set<Version>)
    requires WorldOk(service, w) && StoreOk(w.fs, init, base) && p < |w.clients| && !w.fs.pcs[p].Idle?
    requires AnswerFits(w.fs.effects, w.fs.pcs[p].call, w.fs.pcs[p].op, answer)
    ensures var (next, told) := Receive(service, p, w.clients[p], answer, w.fs.clock);
            Received(service, w.fs.effects, w.scripts, p, w.clients[p], next, told)
  {
    var effects, c, pc := w.fs.effects, w.clients[p], w.fs.pcs[p];
    assert ClientOk(service, effects, w.scripts, p, c, pc);
    assert NothingSince(effects, p, c);
    if Active(c) { assert OwnScripts(w.scripts, c); }
    if c.Reading? {
      ReadReceived(service, effects, w.scripts, p, c, pc, answer, w.drawn, w.fs.clock);
    } else if c.Writing? {
      WriteReceived(service, effects, w.scripts, p, c, pc, answer, w.drawn, w.fs.clock, init, base);
    }
  }

  lemma {:induction false} ClientMovedKeepsWorld<D, O, R>(
    service: Service<D, O, R>, w: World<D, O, R>, u: World<D, O, R>, p: nat, told: seq<Finished<O, R>>)
    requires WorldOk(service, w) && ClientMoved(w, u, p) && u.done == w.done + told
    requires ClientOk(service, u.fs.effects, u.scripts, p, u.clients[p], u.fs.pcs[p])
    requires told == [] || Received(service, u.fs.effects, u.scripts, p, w.clients[p], u.clients[p], told)
    ensures WorldOk(service, u)
  {
    ClientMovedKeepsClients(service, w, u, p);
    ClientMovedKeepsScripts(service, w, u, p);
    ClientMovedKeepsOwners(service, w, u, p);
    ClientMovedKeepsFinished(service, w, u, p, told);
  }

  lemma {:induction false} LandsKeepsWorld<D, O, R>(
    service: Service<D, O, R>, w: World<D, O, R>, u: World<D, O, R>, p: nat, e: FS.Effect)
    requires WorldOk(service, w) && Lands(w, u, p, e)
    ensures WorldOk(service, u)
  {
    LandsKeepsClients(service, w, u, p, e);
    LandsKeepsScripts(service, w, u, p, e);
    LandsKeepsOwners(service, w, u, p, e);
    LandsKeepsFinished(service, w, u, p, e);
  }

  lemma {:induction false} MoveKeepsWorld<D, O, R>(
    service: Service<D, O, R>, w: World<D, O, R>, u: World<D, O, R>, m: Move<O>, init: FS.Stored, base: set<Version>)
    requires Moved(service, w, u, m) && WorldOk(service, w)
    requires StoreOk(w.fs, init, base) && StoreOk(u.fs, init, base)
    ensures WorldOk(service, u)
  {
    var p := ActionOf(m).process;
    if ActionOf(m).Start? {
      CallStarts(service, w, u, m, init, base);
      ClientMovedKeepsWorld(service, w, u, p, []);
    } else if u.fs.effects != w.fs.effects {
      var e := CallLands(service, w, u, m, init, base);
      LandsKeepsWorld(service, w, u, p, e);
    } else if u.fs.done != w.fs.done {
      var told := CallAnswered(service, w, u, m, init, base);
      ClientMovedKeepsWorld(service, w, u, p, told);
    } else {
      CallGoesOn(service, w, u, m);
      ClientMovedKeepsWorld(service, w, u, p, []);
    }
  }

  // --- Nothing takes effect that nobody asked for ---

  /** Client `p` made this call before time n of the run. */
  ghost predicate Called<D, O, R>(
    worlds: seq<World<D, O, R>>, moves: seq<Move<O>>, n: nat, p: nat, op: O, draw: Uuid, call: nat)
    requires n <= |moves| < |worlds|
  {
    exists m :: 0 <= m < n && moves[m] == Move<O>.Call(p, op, draw) && worlds[m].fs.clock == call
  }

  /** Records are made in the name of the moving client's call, which was in progress before. */
  ghost predicate RecordsShape<D, O, R>(w: World<D, O, R>, u: World<D, O, R>, m: Move<O>) {
    && ActionOf(m).process < |w.clients| == |u.clients|
    && CallsNamed(w, u, m) && ScriptsNamed(w, u, ActionOf(m).process) && FinishedNamed(w, u, ActionOf(m).process)
  }

  ghost predicate CallsNamed<D, O, R>(w: World<D, O, R>, u: World<D, O, R>, m: Move<O>)
    requires |w.clients| == |u.clients|
  {
    && w.drawn <= u.drawn && u.fs.clock == w.fs.clock + 1
    && forall q :: 0 <= q < |u.clients| && Active(u.clients[q]) ==>
                     || (&& Active(w.clients[q])
                         && InNameOf(w.clients[q], u.clients[q].op, u.clients[q].draw, u.clients[q].call))
                     || (m == Move<O>.Call(q, u.clients[q].op, u.clients[q].draw) && u.clients[q].call == w.fs.clock)
  }

  ghost predicate ScriptsNamed<D, O, R>(w: World<D, O, R>, u: World<D, O, R>, p: nat)
    requires p < |w.clients|
  {
    && |w.scripts| <= |u.scripts| == |u.fs.effects| <= |w.scripts| + 1
    && u.scripts[..|w.scripts|] == w.scripts && u.fs.effects[..|w.scripts|] == w.fs.effects
    && (|u.scripts| > |w.scripts| && u.scripts[|w.scripts|].Script? ==>
          var x := u.scripts[|w.scripts|];
          && Active(w.clients[p]) && InNameOf(w.clients[p], x.op, x.draw, x.call)
          && u.fs.effects[|w.scripts|].process == p)
  }

  ghost predicate FinishedNamed<D, O, R>(w: World<D, O, R>, u: World<D, O, R>, p: nat)
    requires p < |w.clients|
  {
    && |w.done| <= |u.done| <= |w.done| + 1 && u.done[..|w.done|] == w.done
    && (|u.done| > |w.done| ==>
          var f := u.done[|w.done|];
          && Active(w.clients[p]) && InNameOf(w.clients[p], OpOf(f), DrawOf(f), CallOf(f)) && ClientOf(f) == p)
  }

  ghost predicate InNameOf<D, O, R>(c: Client<D, O, R>, op: O, draw: Uuid, call: nat)
    requires Active(c)
  {
    c.op == op && c.draw == draw && c.call == call
  }

  function OpOf<O, R>(f: Finished<O, R>): O {
    if f.Told? then f.done.op else f.op
  }

  function ClientOf<O, R>(f: Finished<O, R>): nat {
    if f.Told? then f.done.client else f.client
  }

  lemma {:induction false} MoveRecords<D, O, R>(
    service: Service<D, O, R>, w: World<D, O, R>, u: World<D, O, R>, m: Move<O>)
    requires Moved(service, w, u, m) && |w.scripts| == |w.fs.effects|
    ensures RecordsShape(w, u, m)
  {
    MoveNamesCalls(service, w, u, m);
    MoveNamesScripts(service, w, u, m);
    MoveNamesFinished(service, w, u, m);
  }

  lemma {:induction false} MoveNamesCalls<D, O, R>(
    service: Service<D, O, R>, w: World<D, O, R>, u: World<D, O, R>, m: Move<O>)
    requires Moved(service, w, u, m) && |w.scripts| == |w.fs.effects|
    ensures |w.clients| == |u.clients| && CallsNamed(w, u, m)
  {
  }

  lemma {:induction false} MoveNamesScripts<D, O, R>(
    service: Service<D, O, R>, w: World<D, O, R>, u: World<D, O, R>, m: Move<O>)
    requires Moved(service, w, u, m) && |w.scripts| == |w.fs.effects|
    ensures ScriptsNamed(w, u, ActionOf(m).process)
  {
  }

  lemma {:induction false} MoveNamesFinished<D, O, R>(
    service: Service<D, O, R>, w: World<D, O, R>, u: World<D, O, R>, m: Move<O>)
    requires Moved(service, w, u, m) && |w.scripts| == |w.fs.effects|
    ensures FinishedNamed(w, u, ActionOf(m).process)
  {
  }

  ghost predicate RecordsCalled<D, O, R>(worlds: seq<World<D, O, R>>, moves: seq<Move<O>>, n: nat)
    requires n <= |moves| < |worlds|
  {
    var w := worlds[n];
    && |w.scripts| == |w.fs.effects|
    && (forall p :: 0 <= p < |w.clients| && Active(w.clients[p]) ==>
                      Called(worlds, moves, n, p, w.clients[p].op, w.clients[p].draw, w.clients[p].call))
    && (forall i :: 0 <= i < |w.scripts| && w.scripts[i].Script? ==>
                      Called(worlds, moves, n, w.fs.effects[i].process, w.scripts[i].op, w.scripts[i].draw,
                             w.scripts[i].call))
    && forall f <- w.done :: Called(worlds, moves, n, ClientOf(f), OpOf(f), DrawOf(f), CallOf(f))
  }

  lemma {:induction false} CalledLater<D, O, R>(
    worlds: seq<World<D, O, R>>, moves: seq<Move<O>>, n: nat, p: nat, op: O, draw: Uuid, call: nat)
    requires n < |moves| < |worlds| && Called(worlds, moves, n, p, op, draw, call)
    ensures Called(worlds, moves, n + 1, p, op, draw, call)
  {
  }

  lemma {:induction false} MoveRecordsCalled<D, O, R>(worlds: seq<World<D, O, R>>, moves: seq<Move<O>>, n: nat)
    requires n < |moves| < |worlds| && RecordsCalled(worlds, moves, n)
    requires RecordsShape(worlds[n], worlds[n + 1], moves[n])
    ensures RecordsCalled(worlds, moves, n + 1)
  {
    var w, u, p := worlds[n], worlds[n + 1], ActionOf(moves[n]).process;
    forall q | 0 <= q < |u.clients| && Active(u.clients[q])
      ensures Called(worlds, moves, n + 1, q, u.clients[q].op, u.clients[q].draw, u.clients[q].call)
    {
      if Active(w.clients[q]) && InNameOf(w.clients[q], u.clients[q].op, u.clients[q].draw, u.clients[q].call) {
        CalledLater(worlds, moves, n, q, w.clients[q].op, w.clients[q].draw, w.clients[q].call);
      }
    }
    forall i | 0 <= i < |u.scripts| && u.scripts[i].Script?
      ensures Called(worlds, moves, n + 1, u.fs.effects[i].process, u.scripts[i].op, u.scripts[i].draw,
                     u.scripts[i].call)
    {
      var x := u.scripts[i];
      if i < |w.scripts| { assert w.scripts[i] == u.scripts[..|w.scripts|][i] && w.fs.effects[i] == u.fs.effects[i]; }
      CalledLater(worlds, moves, n, u.fs.effects[i].process, x.op, x.draw, x.call);
    }
    forall f | f in u.done ensures Called(worlds, moves, n + 1, ClientOf(f), OpOf(f), DrawOf(f), CallOf(f)) {
      assert f in w.done || f == u.done[|w.done|];
      CalledLater(worlds, moves, n, ClientOf(f), OpOf(f), DrawOf(f), CallOf(f));
    }
  }

  // --- Every run ---

  ghost predicate StoreOkAt<D, O, R>(worlds: seq<World<D, O, R>>, i: nat)
    requires i < |worlds|
  {
    StoreOk(worlds[i].fs, Disks.Current(worlds[0].fs.disk), Texts(worlds[0].fs.drawn))
  }

  lemma {:induction false} StoreIsOk<D(!new), O, R>(
    service: Service<D, O, R>, past: seq<Entry<O, R>>, worlds: seq<World<D, O, R>>, moves: seq<Move<O>>, n: nat)
    requires WorldRun(service, past, worlds, moves) && n < |worlds|
    ensures StoreOkAt(worlds, n)
  {
    StoreRuns(service, past, worlds, moves);
    RunStateIsOk(StoresOf(worlds), ActionsOf(moves), n);
  }

  lemma {:induction false} RunStateIsOk(states: seq<FS.State>, actions: seq<FS.Action>, n: nat)
    requires FS.Run(states, actions) && n < |states|
    ensures StoreOk(states[n], Disks.Current(states[0].disk), Texts(states[0].drawn))
  {
    RunIsProper(states, actions, n);
    RunKeepsInv(states, actions, n);
    AnswersFit(states[n]);
  }

  lemma {:induction false} AnswersFit(s: FS.State)
    requires |s.marks| > 0 && FilesystemRefinement.Answered(s) && Order(s)
    ensures forall d <- s.done :: AnswerFits(s.effects, d.call, d.op, d.answer)
  {
    forall d | d in s.done ensures AnswerFits(s.effects, d.call, d.op, d.answer) {
      var k :| 0 <= k < |s.done| && s.done[k] == d;
      assert DoneOk(s, s.done[k]);
    }
  }

  lemma {:induction false} BeginningIsOk<D(!new), O, R>(
    service: Service<D, O, R>, w: World<D, O, R>, past: seq<Entry<O, R>>)
    requires Begins(service, w, past)
    ensures WorldOk(service, w)
  {
  }

  lemma {:induction false} WorldIsOk<D(!new), O, R>(
    service: Service<D, O, R>, past: seq<Entry<O, R>>, worlds: seq<World<D, O, R>>, moves: seq<Move<O>>, n: nat)
    requires WorldRun(service, past, worlds, moves) && n < |worlds|
    ensures WorldOk(service, worlds[n])
  {
    BeginningIsOk(service, worlds[0], past);
    RunMoves(service, past, worlds, moves);
    forall i | 0 <= i < |worlds| ensures StoreOkAt(worlds, i) {
      StoreIsOk(service, past, worlds, moves, i);
    }
    WorldsStayOk(service, worlds, moves, n);
  }

  lemma {:induction false} WorldsStayOk<D, O, R>(
    service: Service<D, O, R>, worlds: seq<World<D, O, R>>, moves: seq<Move<O>>, n: nat)
    requires |worlds| == |moves| + 1 && n < |worlds| && WorldOk(service, worlds[0])
    requires forall i :: 0 <= i < |moves| ==> MovedAt(service, worlds, moves, i)
    requires forall i :: 0 <= i < |worlds| ==> StoreOkAt(worlds, i)
    ensures WorldOk(service, worlds[n])
  {
    if n > 0 {
      WorldsStayOk(service, worlds, moves, n - 1);
      WorldStaysOk(service, worlds, moves, n - 1);
    }
  }

  lemma {:induction false} WorldStaysOk<D, O, R>(
    service: Service<D, O, R>, worlds: seq<World<D, O, R>>, moves: seq<Move<O>>, i: nat)
    requires i < |moves| && i + 1 < |worlds| && WorldOk(service, worlds[i]) && MovedAt(service, worlds, moves, i)
    requires StoreOkAt(worlds, i) && StoreOkAt(worlds, i + 1)
    ensures WorldOk(service, worlds[i + 1])
  {
    MoveKeepsWorld(service, worlds[i], worlds[i + 1], moves[i], Disks.Current(worlds[0].fs.disk),
                   Texts(worlds[0].fs.drawn));
  }

  /** Clocks advance and draws accumulate. */
  ghost predicate Later<D, O, R>(w: World<D, O, R>, u: World<D, O, R>) {
    w.drawn <= u.drawn && w.fs.clock <= u.fs.clock
  }

  lemma {:induction false} RunRecords<D(!new), O, R>(
    service: Service<D, O, R>, past: seq<Entry<O, R>>, worlds: seq<World<D, O, R>>, moves: seq<Move<O>>, n: nat)
    requires WorldRun(service, past, worlds, moves) && n < |worlds|
    ensures RecordsCalled(worlds, moves, n) && Later(worlds[0], worlds[n])
  {
    RunMoves(service, past, worlds, moves);
    RecordsStayCalled(service, worlds, moves, n);
  }

  lemma {:induction false} RecordsStayCalled<D, O, R>(
    service: Service<D, O, R>, worlds: seq<World<D, O, R>>, moves: seq<Move<O>>, n: nat)
    requires |worlds| == |moves| + 1 && n < |worlds| && RecordsCalled(worlds, moves, 0)
    requires forall i :: 0 <= i < |moves| ==> MovedAt(service, worlds, moves, i)
    ensures RecordsCalled(worlds, moves, n) && Later(worlds[0], worlds[n])
  {
    if n > 0 {
      RecordsStayCalled(service, worlds, moves, n - 1);
      assert MovedAt(service, worlds, moves, n - 1);
      MoveRecords(service, worlds[n - 1], worlds[n - 1 + 1], moves[n - 1]);
      MoveRecordsCalled(worlds, moves, n - 1);
    }
  }

  /** A call made in the run has a new draw, and is later than the past. */
  lemma {:induction false} CalledIsNew<D(!new), O, R>(
    service: Service<D, O, R>, past: seq<Entry<O, R>>, worlds: seq<World<D, O, R>>, moves: seq<Move<O>>, n: nat,
    p: nat, op: O, draw: Uuid, call: nat)
    requires WorldRun(service, past, worlds, moves) && n < |worlds| && Called(worlds, moves, n, p, op, draw, call)
    ensures draw !in worlds[0].drawn && worlds[0].fs.clock <= call
  {
    var m :| 0 <= m < n && moves[m] == Move<O>.Call(p, op, draw) && worlds[m].fs.clock == call;
    RunRecords(service, past, worlds, moves, m);
    assert ClientNextAt(service, worlds, moves, m);
  }

  /** A call takes effect once. */
  lemma {:induction false} EntersOnce<D, O, R>(
    service: Service<D, O, R>, effects: seq<FS.Effect>, scripts: seq<Script<O>>, i: nat, j: nat)
    requires Scripted(service, effects, scripts) && ScriptsOwned(effects, scripts) && i < |effects| && j < |effects|
    requires Enters(service, effects, scripts, i) && Enters(service, effects, scripts, j)
    requires Mine(scripts[j], scripts[i].draw, scripts[i].call)
    ensures i == j
  {
    assert Follows(service, effects, scripts, i) && Follows(service, effects, scripts, j);
    if effects[i].op.Replace? && effects[j].op.Replace? {
      OneReplacePerSnapshot(effects, scripts, i, j);
    }
  }

  /** New calls have new draws and are later than the past. */
  ghost predicate ScriptsNew<O, R>(scripts: seq<Script<O>>, past: seq<Entry<O, R>>, clock: nat) {
    forall i :: 0 <= i < |scripts| && scripts[i].Script? ==>
                  clock <= scripts[i].call && forall e <- past :: e.draw != scripts[i].draw
  }

  lemma {:induction false} DrawsAreFresh<D, O, R>(
    service: Service<D, O, R>, effects: seq<FS.Effect>, scripts: seq<Script<O>>, past: seq<Entry<O, R>>, clock: nat)
    requires Scripted(service, effects, scripts) && ScriptsOwned(effects, scripts)
    requires DistinctDraws(past) && ScriptsNew(scripts, past, clock)
    ensures FreshDraws(service, effects, scripts, past)
  {
    forall i, j | 0 <= i < j < |effects| && Enters(service, effects, scripts, i) && Enters(service, effects, scripts, j)
      ensures scripts[i].draw != scripts[j].draw
    {
      if scripts[i].draw == scripts[j].draw { EntersOnce(service, effects, scripts, i, j); }
    }
  }

  ghost predicate EntriesInOrder<O, R>(h: seq<Entry<O, R>>) {
    forall i, j :: 0 <= i < j < |h| ==> h[i].at < h[j].at && h[i].call != h[j].call
  }

  /** The entries of the history are in the order of their times, each of another call. */
  lemma {:induction false} HistoryInOrder<D, O, R>(
    service: Service<D, O, R>, effects: seq<FS.Effect>, scripts: seq<Script<O>>, past: seq<Entry<O, R>>, clock: nat,
    n: nat)
    requires Scripted(service, effects, scripts) && ScriptsOwned(effects, scripts) && n <= |effects|
    requires IsPast(past, clock) && ScriptsNew(scripts, past, clock) && InOrder(effects)
    requires forall i :: 0 <= i < |scripts| && scripts[i].Script? ==> scripts[i].call <= effects[i].at
    ensures EntriesInOrder(HistoryOf(service, effects, scripts, past, n))
  {
    if n > 0 {
      HistoryInOrder(service, effects, scripts, past, clock, n - 1);
      var before := HistoryOf(service, effects, scripts, past, n - 1);
      if Enters(service, effects, scripts, n - 1) {
        HistoryHoldsOnly(service, effects, scripts, past, n - 1);
        forall e | e in before ensures e.at < effects[n - 1].at && e.call != scripts[n - 1].call {
          NewCall(service, effects, scripts, past, clock, n - 1, e);
        }
        OneMoreInOrder(before, EntryOf(service, effects, scripts, n - 1));
      }
    }
  }

  lemma {:induction false} OneMoreInOrder<O, R>(before: seq<Entry<O, R>>, e: Entry<O, R>)
    requires EntriesInOrder(before) && forall f <- before :: f.at < e.at && f.call != e.call
    ensures EntriesInOrder(before + [e])
  {
    assert forall i :: 0 <= i < |before| ==> before[i] in before;
  }

  lemma {:induction false} NewCall<D, O, R>(
    service: Service<D, O, R>, effects: seq<FS.Effect>, scripts: seq<Script<O>>, past: seq<Entry<O, R>>, clock: nat,
    n: nat, e: Entry<O, R>)
    requires Scripted(service, effects, scripts) && ScriptsOwned(effects, scripts) && n < |effects|
    requires IsPast(past, clock) && ScriptsNew(scripts, past, clock) && Enters(service, effects, scripts, n)
    requires e in past || EntersAs(service, effects, scripts, n, e)
    requires InOrder(effects) && scripts[n].call <= effects[n].at
    ensures e.call != scripts[n].call && e.at < effects[n].at
  {
    if e in past {
      var k :| 0 <= k < |past| && past[k] == e;
    } else {
      var i :| 0 <= i < n && Enters(service, effects, scripts, i) && EntryOf(service, effects, scripts, i) == e;
      if e.call == scripts[n].call { EntersOnce(service, effects, scripts, n, i); }
    }
  }

  // --- Main theorems ---

  /** Such clients are clients of the structure: their history is built and survives crashes as
      `DurableStructures` says. */
  lemma {:induction false} ClientsServe<D(!new), O, R>(
    service: Service<D, O, R>, past: seq<Entry<O, R>>, worlds: seq<World<D, O, R>>, moves: seq<Move<O>>, n: nat)
    requires WorldRun(service, past, worlds, moves) && n < |worlds|
    ensures FS.Run(StoresOf(worlds), ActionsOf(moves)) && WorldOk(service, worlds[n])
    ensures Serves(service, worlds[0].fs, worlds[n].fs.effects, worlds[n].scripts, past)
    ensures ScriptsNew(worlds[n].scripts, past, worlds[0].fs.clock)
  {
    var w := worlds[n];
    StoreRuns(service, past, worlds, moves);
    WorldIsOk(service, past, worlds, moves, n);
    RunRecords(service, past, worlds, moves, n);
    forall i | 0 <= i < |w.scripts| && w.scripts[i].Script?
      ensures worlds[0].fs.clock <= w.scripts[i].call && forall e <- past :: e.draw != w.scripts[i].draw
    {
      var x := w.scripts[i];
      CalledIsNew(service, past, worlds, moves, n, w.fs.effects[i].process, x.op, x.draw, x.call);
    }
    DrawsAreFresh(service, w.fs.effects, w.scripts, past, worlds[0].fs.clock);
  }

  /** The history of the calls that took effect so far. */
  ghost function WorldHistory<D, O, R>(
    service: Service<D, O, R>, w: World<D, O, R>, past: seq<Entry<O, R>>): seq<Entry<O, R>>
    requires |w.fs.effects| == |w.scripts|
  {
    HistoryOf(service, w.fs.effects, w.scripts, past, |w.fs.effects|)
  }

  /** Clients on the filesystem store are linearizable, whatever fails and whoever dies: replaying the calls that took
      effect, reads included, gives every result and the stored document, in the order of their times;
      every call that was told a reply is explained by them, one that was told there is no object is not among
      them, and every new entry is that of a call its client made. */
  lemma {:induction false} DurablyLinearizable<D(!new), O, R>(
    service: Service<D, O, R>, past: seq<Entry<O, R>>, worlds: seq<World<D, O, R>>, moves: seq<Move<O>>, n: nat)
    requires WorldRun(service, past, worlds, moves) && n < |worlds|
    ensures |worlds[n].fs.effects| == |worlds[n].scripts|
    ensures var h := WorldHistory(service, worlds[n], past);
            && past <= h && Legal(service.sys, service.empty, h) && DistinctDraws(h) && EntriesInOrder(h)
            && Stores(service, Disks.Current(worlds[n].fs.disk), h)
            && (forall f <- worlds[n].done :: f.Told? ==> Linearizability.Explained(h, f.done))
            && (forall f <- worlds[n].done :: f.NoObject? ==> forall e <- h :: e.call != f.call)
            && forall e <- h :: e in past || Called(worlds, moves, n, e.client, e.op, e.draw, e.call)
  {
    var w := worlds[n];
    ClientsServe(service, past, worlds, moves, n);
    RunIsProper(StoresOf(worlds), ActionsOf(moves), n);
    ObjectHoldsHistory(service, StoresOf(worlds), ActionsOf(moves), w.scripts, past, n, |w.fs.effects|);
    StoreIsOk(service, past, worlds, moves, n);
    ScriptsInTime(w);
    HistoryInOrder(service, w.fs.effects, w.scripts, past, worlds[0].fs.clock, |w.fs.effects|);
    EntriesWereCalled(service, past, worlds, moves, n);
    RepliesAreExplained(service, past, worlds, moves, n);
  }

  lemma {:induction false} ScriptsInTime<D, O, R>(w: World<D, O, R>)
    requires |w.fs.effects| == |w.scripts|
    requires forall i :: 0 <= i < |w.scripts| ==> ScriptOk(w.fs.effects, w.scripts, i, w.drawn, w.fs.clock)
    ensures forall i :: 0 <= i < |w.scripts| && w.scripts[i].Script? ==> w.scripts[i].call <= w.fs.effects[i].at
  {
    forall i | 0 <= i < |w.scripts| && w.scripts[i].Script? ensures w.scripts[i].call <= w.fs.effects[i].at {
      assert ScriptOk(w.fs.effects, w.scripts, i, w.drawn, w.fs.clock);
    }
  }

  lemma {:induction false} EntriesWereCalled<D(!new), O, R>(
    service: Service<D, O, R>, past: seq<Entry<O, R>>, worlds: seq<World<D, O, R>>, moves: seq<Move<O>>, n: nat)
    requires WorldRun(service, past, worlds, moves) && n < |worlds|
    ensures |worlds[n].fs.effects| == |worlds[n].scripts|
    ensures forall e <- WorldHistory(service, worlds[n], past) ::
              e in past || Called(worlds, moves, n, e.client, e.op, e.draw, e.call)
  {
    var w := worlds[n];
    RunRecords(service, past, worlds, moves, n);
    HistoryHoldsOnly(service, w.fs.effects, w.scripts, past, |w.fs.effects|);
    forall e | e in WorldHistory(service, w, past) && e !in past
      ensures Called(worlds, moves, n, e.client, e.op, e.draw, e.call)
    {
      var i :| && 0 <= i < |w.fs.effects| && Enters(service, w.fs.effects, w.scripts, i)
               && EntryOf(service, w.fs.effects, w.scripts, i) == e;
    }
  }

  lemma {:induction false} RepliesAreExplained<D(!new), O, R>(
    service: Service<D, O, R>, past: seq<Entry<O, R>>, worlds: seq<World<D, O, R>>, moves: seq<Move<O>>, n: nat)
    requires WorldRun(service, past, worlds, moves) && n < |worlds|
    ensures |worlds[n].fs.effects| == |worlds[n].scripts|
    ensures var h := WorldHistory(service, worlds[n], past);
            && (forall f <- worlds[n].done :: f.Told? ==> Linearizability.Explained(h, f.done))
            && forall f <- worlds[n].done :: f.NoObject? ==> forall e <- h :: e.call != f.call
  {
    var w := worlds[n];
    WorldIsOk(service, past, worlds, moves, n);
    RunRecords(service, past, worlds, moves, n);
    forall f | f in w.done
      ensures var h := WorldHistory(service, w, past);
              if f.Told? then Linearizability.Explained(h, f.done) else forall e <- h :: e.call != f.call
    {
      assert FinishedOk(service, w.fs.effects, w.scripts, f);
      CalledIsNew(service, past, worlds, moves, n, ClientOf(f), OpOf(f), DrawOf(f), CallOf(f));
      FinishedIsExplained(service, w.fs.effects, w.scripts, past, worlds[0].fs.clock, f);
    }
  }

  /** The entries of a call are among its scripts. */
  lemma {:induction false} EntriesOfCall<D, O, R>(
    service: Service<D, O, R>, effects: seq<FS.Effect>, scripts: seq<Script<O>>, past: seq<Entry<O, R>>, clock: nat,
    call: nat, e: Entry<O, R>) returns (i: nat)
    requires |effects| == |scripts| && IsPast(past, clock) && clock <= call
    requires e in HistoryOf(service, effects, scripts, past, |effects|) && e.call == call
    ensures i < |effects| && Enters(service, effects, scripts, i) && EntryOf(service, effects, scripts, i) == e
  {
    HistoryHoldsOnly(service, effects, scripts, past, |effects|);
    assert forall f <- past :: f.call < clock;
    i :| 0 <= i < |effects| && Enters(service, effects, scripts, i) && EntryOf(service, effects, scripts, i) == e;
  }

  lemma {:induction false} FinishedIsExplained<D, O, R>(
    service: Service<D, O, R>, effects: seq<FS.Effect>, scripts: seq<Script<O>>, past: seq<Entry<O, R>>, clock: nat,
    f: Finished<O, R>)
    requires Scripted(service, effects, scripts) && IsPast(past, clock) && clock <= CallOf(f)
    requires FinishedOk(service, effects, scripts, f)
    ensures var h := HistoryOf(service, effects, scripts, past, |effects|);
            if f.Told? then Linearizability.Explained(h, f.done) else forall e <- h :: e.call != f.call
  {
    var h := HistoryOf(service, effects, scripts, past, |effects|);
    if f.NoObject? || f.done.reply.Conflicted? {
      forall e | e in h ensures e.call != CallOf(f) {
        if e.call == CallOf(f) {
          var i := EntriesOfCall(service, effects, scripts, past, clock, CallOf(f), e);
          assert Mine(scripts[i], DrawOf(f), CallOf(f));
          assert false;
        }
      }
    }
    if f.Told? { ReplyIsExplained(service, effects, scripts, past, clock, f.done); }
  }

  lemma {:induction false} ReplyIsExplained<D, O, R>(
    service: Service<D, O, R>, effects: seq<FS.Effect>, scripts: seq<Script<O>>, past: seq<Entry<O, R>>, clock: nat,
    d: Done<O, R>)
    requires Scripted(service, effects, scripts) && IsPast(past, clock) && clock <= d.call
    requires ReplyOk(service, effects, scripts, d)
    requires d.reply.Conflicted? ==>
              forall e <- HistoryOf(service, effects, scripts, past, |effects|) :: e.call != d.call
    ensures Linearizability.Explained(HistoryOf(service, effects, scripts, past, |effects|), d)
  {
    var h := HistoryOf(service, effects, scripts, past, |effects|);
    HistoryHolds(service, effects, scripts, past, |effects|);
    match d.reply
    case Returned(result) =>
      var i :| TookEffectAt(service, effects, scripts, d, result, i);
      var k :| 0 <= k < |h| && h[k] == EntryOf(service, effects, scripts, i);
      assert Linearizability.TookEffect(h, d, result, k);
    case Conflicted(_, _) =>
      var i :| OvertakenAt(effects, d.client, d.readAt, d.returnedAt, i);
      assert Follows(service, effects, scripts, i);
      var k :| 0 <= k < |h| && h[k] == EntryOf(service, effects, scripts, i);
      assert Linearizability.Overtaken(h, d.client, d.readAt, k);
    case StoreFailed =>
      forall k | 0 <= k < |h| && h[k].call == d.call
        ensures h[k].wrote && h[k].op == d.op && h[k].draw == d.draw && d.call <= h[k].at <= d.returnedAt
      {
        var i := EntriesOfCall(service, effects, scripts, past, clock, d.call, h[k]);
        assert OnlyWrote(effects, scripts, d, i);
      }
  }

  // --- What was told is on stable storage ---

  /** A call that was told a result decided not to write, or the store acknowledged its write. */
  ghost predicate Backed<D, O, R>(service: Service<D, O, R>, w: World<D, O, R>, f: Finished<O, R>)
    requires |w.fs.effects| == |w.scripts|
  {
    f.Told? && f.done.reply.Returned? ==> exists i :: BackedAt(service, w.fs.effects, w.scripts, w.fs.done, f.done, i)
  }

  ghost predicate BackedAt<D, O, R>(
    service: Service<D, O, R>, effects: seq<FS.Effect>, scripts: seq<Script<O>>, acks: seq<FS.Done>,
    d: Done<O, R>, i: int)
    requires |effects| == |scripts|
  {
    && 0 <= i < |effects| && Enters(service, effects, scripts, i)
    && scripts[i].op == d.op && scripts[i].draw == d.draw
    && d.reply == Returned(DecidedBy(service, effects, scripts[i]).result)
    && (Mutates(effects[i]) ==>
          exists ack <- acks :: ack.op.Replace? && Performed(effects, ack.call, ack.op, ack.answer, i))
  }

  lemma {:induction false} BackedStill<D, O, R>(
    service: Service<D, O, R>, w: World<D, O, R>, u: World<D, O, R>, f: Finished<O, R>, drawn: set<Uuid>, clock: nat)
    requires |w.fs.effects| == |w.scripts| && |u.fs.effects| == |u.scripts| && Backed(service, w, f)
    requires w.fs.effects <= u.fs.effects && w.scripts <= u.scripts && w.fs.done <= u.fs.done
    requires forall i :: 0 <= i < |w.scripts| ==> ScriptOk(w.fs.effects, w.scripts, i, drawn, clock)
    ensures Backed(service, u, f)
  {
    if f.Told? && f.done.reply.Returned? {
      var i :| BackedAt(service, w.fs.effects, w.scripts, w.fs.done, f.done, i);
      assert ScriptOk(w.fs.effects, w.scripts, i, drawn, clock);
      if Mutates(w.fs.effects[i]) {
        var ack :| && ack in w.fs.done && ack.op.Replace?
                   && Performed(w.fs.effects, ack.call, ack.op, ack.answer, i);
        assert ack in u.fs.done && Performed(u.fs.effects, ack.call, ack.op, ack.answer, i);
      }
      assert BackedAt(service, u.fs.effects, u.scripts, u.fs.done, f.done, i);
    }
  }

  /** What is told at an answer of the store is backed by it. */
  lemma {:induction false} AnswerBacks<D, O, R>(
    service: Service<D, O, R>, w: World<D, O, R>, p: nat, ack: FS.Done, acks: seq<FS.Done>)
    requires WorldOk(service, w) && p < |w.clients| && !w.fs.pcs[p].Idle? && ack in acks
    requires ack.call == w.fs.pcs[p].call && ack.op == w.fs.pcs[p].op
    requires AnswerFits(w.fs.effects, ack.call, ack.op, ack.answer)
    ensures forall f <- Receive(service, p, w.clients[p], ack.answer, w.fs.clock).1 ::
              f.Told? && f.done.reply.Returned? ==>
                exists i :: BackedAt(service, w.fs.effects, w.scripts, acks, f.done, i)
  {
    var effects, scripts, c, pc := w.fs.effects, w.scripts, w.clients[p], w.fs.pcs[p];
    assert ClientOk(service, effects, scripts, p, c, pc);
    var told := Receive(service, p, c, ack.answer, w.fs.clock).1;
    if told != [] && told[0].Told? && told[0].done.reply.Returned? {
      var d := told[0].done;
      if c.Reading? {
        ReadFound(service, effects, scripts, p, c, pc, ack.answer);
        assert BackedAt(service, effects, scripts, acks, d, c.seen.value);
      } else {
        AnswerHasEffect(effects, pc.call, pc.op, ack.answer);
        AnswerOfEffect(effects, pc.call, pc.op, ack.answer, c.landed.value);
        assert Performed(effects, ack.call, ack.op, ack.answer, c.landed.value);
        assert BackedAt(service, effects, scripts, acks, d, c.landed.value);
      }
    }
  }

  // --- What was told is what the store answered ---

  function ReturnedAt<O, R>(f: Finished<O, R>): nat {
    if f.Told? then f.done.returnedAt else f.returnedAt
  }

  /** Effect `g` is the read behind the replace `op` of call `d`: it found the version that the replace expects, and
      what the call decides on it is what the replace writes. */
  ghost predicate ReadBehind<D, O, R>(
    service: Service<D, O, R>, effects: seq<FS.Effect>, d: Done<O, R>, op: FS.Op, g: int)
    requires op.Replace?
  {
    && 0 <= g < |effects| && Finds(effects[g]) && effects[g].process == d.client && effects[g].at == d.readAt
    && effects[g].answer.found.value.version == op.expected
    && var decided := service.sys.Decide(service.codec.parse(effects[g].answer.found.value.bytes), d.op, d.draw);
       && decided.Put? && op.bytes == service.codec.text(decided.doc)
       && (d.reply.Returned? ==> d.reply.result == decided.result)
  }

  /** The reply is exactly what the answer `ack` of the store calls for. */
  ghost predicate Tells<D, O, R>(
    service: Service<D, O, R>, effects: seq<FS.Effect>, ack: FS.Done, f: Finished<O, R>)
  {
    && ack.process == ClientOf(f) && ack.returnedAt == ReturnedAt(f)
    && (f.NoObject? <==> ack.op.Get? && ack.answer == Found(None))
    && (f.Told? ==> TellsReply(service, effects, ack, f.done))
  }

  ghost predicate TellsReply<D, O, R>(
    service: Service<D, O, R>, effects: seq<FS.Effect>, ack: FS.Done, d: Done<O, R>)
  {
    && (d.reply.StoreFailed? <==> ack.answer.StoreError?)
    && (d.reply.Conflicted? <==> ack.op.Replace? && ack.answer.Conflict?)
    && (d.reply.Returned? <==>
          (ack.op.Get? && ack.answer.Found? && ack.answer.found.Some?) || (ack.op.Replace? && ack.answer.Wrote?))
    && (d.reply.Conflicted? ==> d.reply == Conflicted(ack.op.expected, ack.answer.current))
    && (d.reply.Returned? && ack.op.Get? ==>
          service.sys.Decide(service.codec.parse(ack.answer.found.value.bytes), d.op, d.draw) == Keep(d.reply.result))
    && (ack.op.Replace? ==> exists g :: ReadBehind(service, effects, d, ack.op, g))
  }

  ghost predicate ToldByStore<D, O, R>(service: Service<D, O, R>, w: World<D, O, R>, f: Finished<O, R>) {
    exists ack <- w.fs.done :: Tells(service, w.fs.effects, ack, f)
  }

  /** Only reads answer what they found, only replaces conflict or write. */
  lemma {:induction false} AnswerKinds(
    init: FS.Stored, base: set<Version>, effects: seq<FS.Effect>, call: nat, op: FS.Op, answer: FS.Answer)
    requires Proper(init, base, effects) && AnswerFits(effects, call, op, answer)
    ensures op.Get? ==> answer.Found? || answer.StoreError?
    ensures op.Replace? ==> answer.Wrote? || answer.Conflict? || answer.StoreError?
  {
    if !answer.StoreError? {
      var i :| Performed(effects, call, op, answer, i);
      assert AtomicAt(init, base, effects, i);
    }
  }

  lemma {:induction false} AnswerTells<D, O, R>(
    service: Service<D, O, R>, w: World<D, O, R>, p: nat, ack: FS.Done, init: FS.Stored, base: set<Version>)
    requires WorldOk(service, w) && p < |w.clients| && !w.fs.pcs[p].Idle? && Proper(init, base, w.fs.effects)
    requires ack.process == p && ack.call == w.fs.pcs[p].call && ack.op == w.fs.pcs[p].op
    requires ack.returnedAt == w.fs.clock && AnswerFits(w.fs.effects, ack.call, ack.op, ack.answer)
    ensures forall f <- Receive(service, p, w.clients[p], ack.answer, w.fs.clock).1 ::
              Tells(service, w.fs.effects, ack, f)
  {
    var effects, c := w.fs.effects, w.clients[p];
    assert ClientOk(service, effects, w.scripts, p, c, w.fs.pcs[p]);
    AnswerKinds(init, base, effects, ack.call, ack.op, ack.answer);
    if c.Reading? && ack.answer.Found? && ack.answer.found.Some? {
      ReadFound(service, effects, w.scripts, p, c, w.fs.pcs[p], ack.answer);
    }
    if c.Writing? {
      var d := Receive(service, p, c, ack.answer, w.fs.clock).1[0].done;
      assert ReadBehind(service, effects, d, ack.op, c.snapshot);
    }
  }

  lemma {:induction false} TellsStill<D, O, R>(
    service: Service<D, O, R>, w: World<D, O, R>, u: World<D, O, R>, f: Finished<O, R>)
    requires w.fs.effects <= u.fs.effects && w.fs.done <= u.fs.done && ToldByStore(service, w, f)
    ensures ToldByStore(service, u, f)
  {
    var ack :| ack in w.fs.done && Tells(service, w.fs.effects, ack, f);
    if f.Told? && ack.op.Replace? {
      var g :| ReadBehind(service, w.fs.effects, f.done, ack.op, g);
      assert ReadBehind(service, u.fs.effects, f.done, ack.op, g);
    }
    assert ack in u.fs.done && Tells(service, u.fs.effects, ack, f);
  }

  ghost predicate AllBacked<D, O, R>(service: Service<D, O, R>, w: World<D, O, R>) {
    && |w.fs.effects| == |w.scripts|
    && forall f <- w.done :: Backed(service, w, f) && ToldByStore(service, w, f)
  }

  lemma {:induction false} MoveKeepsBacked<D, O, R>(
    service: Service<D, O, R>, w: World<D, O, R>, u: World<D, O, R>, m: Move<O>, init: FS.Stored, base: set<Version>)
    requires Moved(service, w, u, m) && WorldOk(service, w) && WorldOk(service, u) && StoreOk(u.fs, init, base)
    requires AllBacked(service, w)
    ensures AllBacked(service, u)
  {
    MoveRecords(service, w, u, m);
    forall f | f in u.done ensures Backed(service, u, f) && ToldByStore(service, u, f) {
      if f in w.done {
        PrefixesGrow(service, w, u, m);
        BackedStill(service, w, u, f, w.drawn, w.fs.clock);
        TellsStill(service, w, u, f);
      } else {
        AckBacks(service, w, u, m, init, base, f);
      }
    }
  }

  lemma {:induction false} PrefixesGrow<D, O, R>(
    service: Service<D, O, R>, w: World<D, O, R>, u: World<D, O, R>, m: Move<O>)
    requires Moved(service, w, u, m) && |w.fs.effects| == |w.scripts| && RecordsShape(w, u, m)
    ensures w.fs.effects <= u.fs.effects && w.scripts <= u.scripts && w.fs.done <= u.fs.done
  {
  }

  lemma {:induction false} AckBacks<D, O, R>(
    service: Service<D, O, R>, w: World<D, O, R>, u: World<D, O, R>, m: Move<O>, init: FS.Stored, base: set<Version>,
    f: Finished<O, R>)
    requires Moved(service, w, u, m) && WorldOk(service, w) && WorldOk(service, u) && StoreOk(u.fs, init, base)
    requires f in u.done && f !in w.done
    ensures Backed(service, u, f) && ToldByStore(service, u, f)
  {
    var p := ActionOf(m).process;
    assert ClientOk(service, w.fs.effects, w.scripts, p, w.clients[p], w.fs.pcs[p]);
    var ack := u.fs.done[|w.fs.done|];
    assert ack in u.fs.done;
    AnswerBacks(service, w, p, ack, u.fs.done);
    AnswerTells(service, w, p, ack, init, base);
  }

  lemma {:induction false} ToldIsBacked<D(!new), O, R>(
    service: Service<D, O, R>, past: seq<Entry<O, R>>, worlds: seq<World<D, O, R>>, moves: seq<Move<O>>, n: nat)
    requires WorldRun(service, past, worlds, moves) && n < |worlds|
    ensures AllBacked(service, worlds[n])
  {
    RunMoves(service, past, worlds, moves);
    forall i | 0 <= i < |worlds| ensures StoreOkAt(worlds, i) {
      StoreIsOk(service, past, worlds, moves, i);
    }
    forall i | 0 <= i < |worlds| ensures WorldOkAt(service, worlds, i) {
      WorldIsOk(service, past, worlds, moves, i);
    }
    AllStayBacked(service, worlds, moves, n);
  }

  ghost predicate WorldOkAt<D, O, R>(service: Service<D, O, R>, worlds: seq<World<D, O, R>>, i: nat)
    requires i < |worlds|
  {
    WorldOk(service, worlds[i])
  }

  lemma {:induction false} AllStayBacked<D, O, R>(
    service: Service<D, O, R>, worlds: seq<World<D, O, R>>, moves: seq<Move<O>>, n: nat)
    requires |worlds| == |moves| + 1 && n < |worlds| && AllBacked(service, worlds[0])
    requires forall i :: 0 <= i < |moves| ==> MovedAt(service, worlds, moves, i)
    requires forall i :: 0 <= i < |worlds| ==> StoreOkAt(worlds, i)
    requires forall i :: 0 <= i < |worlds| ==> WorldOkAt(service, worlds, i)
    ensures AllBacked(service, worlds[n])
  {
    if n > 0 {
      AllStayBacked(service, worlds, moves, n - 1);
      StaysBacked(service, worlds, moves, n - 1);
    }
  }

  lemma {:induction false} StaysBacked<D, O, R>(
    service: Service<D, O, R>, worlds: seq<World<D, O, R>>, moves: seq<Move<O>>, i: nat)
    requires i < |moves| && i + 1 < |worlds| && MovedAt(service, worlds, moves, i) && StoreOkAt(worlds, i + 1)
    requires WorldOkAt(service, worlds, i) && WorldOkAt(service, worlds, i + 1) && AllBacked(service, worlds[i])
    ensures AllBacked(service, worlds[i + 1])
  {
    MoveKeepsBacked(service, worlds[i], worlds[i + 1], moves[i],
                    Disks.Current(worlds[0].fs.disk), Texts(worlds[0].fs.drawn));
  }

  /** Every reply is exactly what the store's answer calls for: a store failure after an error, a conflict after a
      refused replace, with both versions, a result after a successful replace or a read that was enough, and
      that there is no object after a read that found none. */
  lemma {:induction false} RepliesAreAnswers<D(!new), O, R>(
    service: Service<D, O, R>, past: seq<Entry<O, R>>, worlds: seq<World<D, O, R>>, moves: seq<Move<O>>, n: nat)
    requires WorldRun(service, past, worlds, moves) && n < |worlds|
    ensures forall f <- worlds[n].done :: ToldByStore(service, worlds[n], f)
  {
    ToldIsBacked(service, past, worlds, moves, n);
  }

  /** Whatever a client was told, unless its call did not write, survives every crash: what the crash leaves is a
      history that holds the call with the result it was told. */
  lemma {:induction false} ToldSurvivesCrash<D(!new), O, R>(
    service: Service<D, O, R>, past: seq<Entry<O, R>>, worlds: seq<World<D, O, R>>, moves: seq<Move<O>>,
    n: nat, k: nat, after: Disks.Disk) returns (h: seq<Entry<O, R>>)
    requires WorldRun(service, past, worlds, moves) && n < |worlds| && Disks.CrashLeaves(worlds[n].fs.disk, k, after)
    ensures past <= h && Legal(service.sys, service.empty, h) && DistinctDraws(h)
    ensures Stores(service, Disks.Current(after), h)
    ensures forall f <- worlds[n].done :: f.Told? && f.done.reply.Returned? ==>
              || ToldInHistory(h, f.done)
              || exists i :: 0 <= i < |worlds[n].fs.effects| == |worlds[n].scripts|
                             && DecidedToKeep(service, worlds[n].fs.effects, worlds[n].scripts, f.done, i)
  {
    var w := worlds[n];
    ClientsServe(service, past, worlds, moves, n);
    ToldIsBacked(service, past, worlds, moves, n);
    StoreIsOk(service, past, worlds, moves, n);
    var kept := CrashKeepsHistory(service, StoresOf(worlds), ActionsOf(moves), w.scripts, past, n, k, after);
    h := HistoryOf(service, w.fs.effects, w.scripts, past, kept);
    forall f | f in w.done && f.Told? && f.done.reply.Returned?
      ensures || ToldInHistory(h, f.done)
              || exists i :: && 0 <= i < |w.fs.effects| && DecidedToKeep(service, w.fs.effects, w.scripts, f.done, i)
    {
      assert Backed(service, w, f);
      BackedSurvives(service, w.fs.effects, w.scripts, w.fs.done, past, kept, f.done);
    }
  }

  lemma {:induction false} BackedSurvives<D, O, R>(
    service: Service<D, O, R>, effects: seq<FS.Effect>, scripts: seq<Script<O>>, acks: seq<FS.Done>,
    past: seq<Entry<O, R>>, kept: nat, d: Done<O, R>)
    requires kept <= |effects| == |scripts| && exists i :: BackedAt(service, effects, scripts, acks, d, i)
    requires forall i, j :: 0 <= i < j < |effects| ==> effects[i].call != effects[j].call
    requires forall ack <- acks :: ack.op.Replace? && ack.answer.Wrote? ==>
               exists j :: 0 <= j < kept && ReplacedBy(effects, ack, j) && Enters(service, effects, scripts, j)
    ensures || ToldInHistory(HistoryOf(service, effects, scripts, past, kept), d)
            || exists i :: 0 <= i < |effects| && DecidedToKeep(service, effects, scripts, d, i)
  {
    var i :| BackedAt(service, effects, scripts, acks, d, i);
    if Mutates(effects[i]) {
      var ack :| ack in acks && ack.op.Replace? && Performed(effects, ack.call, ack.op, ack.answer, i);
      var j :| 0 <= j < kept && ReplacedBy(effects, ack, j) && Enters(service, effects, scripts, j);
      OneEffectPerCall(effects, i, j);
      HistoryHolds(service, effects, scripts, past, kept);
      assert EntryOf(service, effects, scripts, i) in HistoryOf(service, effects, scripts, past, kept);
    } else {
      assert DecidedToKeep(service, effects, scripts, d, i);
    }
  }

  ghost predicate ToldInHistory<O, R>(h: seq<Entry<O, R>>, d: Done<O, R>) {
    exists e <- h :: e.wrote && e.op == d.op && e.draw == d.draw && d.reply == Returned(e.result)
  }

  /** The call was told what it decided on a snapshot without writing. */
  ghost predicate DecidedToKeep<D, O, R>(
    service: Service<D, O, R>, effects: seq<FS.Effect>, scripts: seq<Script<O>>, d: Done<O, R>, i: nat)
    requires i < |effects| == |scripts|
  {
    && Enters(service, effects, scripts, i) && scripts[i].op == d.op && scripts[i].draw == d.draw
    && DecidedBy(service, effects, scripts[i]).Keep?
    && d.reply == Returned(DecidedBy(service, effects, scripts[i]).result)
  }
}
