/** Creating and opening one structure: any number of clients race to create, open, or open or create
    it, with whatever kinds and schemas, while others already use it. */
module Lifecycles {
  import opened Prelude
  import opened StoreContract
  import opened Metadata
  import opened MemoryStores

  datatype Content<+B> = Content(header: Header, body: B)

  datatype Mode = JustCreate | JustOpen | OpenOrCreate

  datatype Outcome =
    | Opened
    | NotFound
    | Exists
    | Refused(reason: Incompatible)
    | Failed

  /** `sure` says that the object was seen to exist before. `Holding` is a client with an open handle,
      `Changing` one between the read and the replace of a mutation. */
  datatype Pc<+B> =
    | Idle
    | Creating(mode: Mode, want: Header)
    | Probing(want: Header)
    | Reading(mode: Mode, want: Header, sure: bool)
    | Holding(want: Header)
    | Changing(want: Header, expected: Version, doc: Content<B>)

  /** One operation of the store and its reply. */
  datatype Exchange<+B> = Exchange(op: StoreOp<Content<B>>, reply: StoreReply<Content<B>>)

  /** What a client asked for, and its exchanges with the store since. */
  datatype Attempt<+B> = Attempt(mode: Mode, want: Header, trace: seq<Exchange<B>>)

  datatype Done<+B> = Done(client: nat, mode: Mode, want: Header, outcome: Outcome, attempt: Attempt<B>)

  /** `creations` lists the headers of all creations that happened. `attempts` only records, client by client, what
      was asked for and answered; no client looks at it. */
  datatype State<+B> = State(
    stored: Option<Object<Content<B>>>,
    used: set<Version>,
    pcs: seq<Pc<B>>,
    attempts: seq<Attempt<B>>,
    creations: seq<Header>,
    done: seq<Done<B>>)

  datatype Action<+B> =
    | Begin(client: nat, mode: Mode, want: Header)
    | Touch(client: nat, reply: StoreReply<Content<B>>, post: Option<Object<Content<B>>>, body: B)
    | Close(client: nat)

  /** The store operation a client is about to perform; creators write an empty document. */
  function OpOf<B>(pc: Pc<B>, empty: B): StoreOp<Content<B>> {
    match pc
    case Creating(_, want) => StoreOp.Create(Content(want, empty))
    case Changing(_, expected, doc) => StoreOp.Replace(expected, doc)
    case _ => StoreOp.Get
  }

  function Check(header: Header, want: Header): Outcome {
    match Validate(header, want.kind, want.schema)
    case None => Opened
    case Some(reason) => Refused(reason)
  }

  ghost predicate Init<B>(s: State<B>) {
    && s.stored == None && s.creations == [] && s.done == [] && |s.attempts| == |s.pcs|
    && forall c :: 0 <= c < |s.pcs| ==> s.pcs[c] == Idle
  }

  ghost predicate Enabled<B>(s: State<B>, a: Action<B>, empty: B) {
    && a.client < |s.pcs| == |s.attempts|
    && var pc := s.pcs[a.client];
    match a
    case Begin(_, _, want) => pc.Idle? && want.formatVersion == FORMAT_VERSION
    case Touch(_, reply, post, _) => !pc.Idle? && Contract(s.stored, OpOf(pc, empty), reply, post, s.used)
    case Close(_) => pc.Holding?
  }

  ghost function Step<B>(s: State<B>, a: Action<B>, empty: B): State<B>
    requires Enabled(s, a, empty)
  {
    var c := a.client;
    match a
    case Begin(_, mode, want) =>
      s.(attempts := s.attempts[c := Attempt(mode, want, [])],
         pcs := s.pcs[c := if mode.JustCreate? then Creating(mode, want)
                           else if mode.JustOpen? then Reading(mode, want, false)
                           else Probing(want)])
    case Close(_) => s.(pcs := s.pcs[c := Idle])
    case Touch(_, reply, post, body) =>
      var trace := s.attempts[c].trace + [Exchange(OpOf(s.pcs[c], empty), reply)];
      var t := s.(stored := post,
                  attempts := s.attempts[c := s.attempts[c].(trace := trace)],
                  used := s.used + if post.Some? then {post.value.version} else {},
                  creations := s.creations + if s.stored.None? && post.Some? then [post.value.bytes.header] else []);
      After(t, c, s.pcs[c], reply, body)
  }

  /** Where the client goes with the reply. A mutation writes a document with the header it read. */
  ghost function After<B>(t: State<B>, c: nat, pc: Pc<B>, reply: StoreReply<Content<B>>, body: B): State<B>
    requires c < |t.pcs| == |t.attempts|
  {
    match pc
    case Idle => t
    case Creating(mode, want) =>
      if reply.Wrote? then Finish(t, c, mode, want, Opened)
      else if reply.AlreadyExists? then
        if mode.OpenOrCreate? then Goto(t, c, Reading(mode, want, true)) else Finish(t, c, mode, want, Exists)
      else Finish(t, c, mode, want, Failed)
    case Probing(want) =>
      if !reply.Found? then Finish(t, c, OpenOrCreate, want, Failed)
      else if reply.found.Some? then Goto(t, c, Reading(OpenOrCreate, want, true))
      else Goto(t, c, Creating(OpenOrCreate, want))
    case Reading(mode, want, _) =>
      if !reply.Found? then Finish(t, c, mode, want, Failed)
      else if reply.found.None? then Finish(t, c, mode, want, NotFound)
      else Finish(t, c, mode, want, Check(reply.found.value.bytes.header, want))
    case Holding(want) =>
      if reply.Found? && reply.found.Some? && Check(reply.found.value.bytes.header, want).Opened?
      then Goto(t, c, Changing(want, reply.found.value.version, Content(reply.found.value.bytes.header, body)))
      else t
    case Changing(want, _, _) => Goto(t, c, Holding(want))
  }

  ghost function Goto<B>(t: State<B>, c: nat, pc: Pc<B>): State<B>
    requires c < |t.pcs|
  {
    t.(pcs := t.pcs[c := pc])
  }

  ghost function Finish<B>(t: State<B>, c: nat, mode: Mode, want: Header, outcome: Outcome): State<B>
    requires c < |t.pcs| == |t.attempts|
  {
    Goto(t, c, if outcome.Opened? then Holding(want) else Idle)
    .(done := t.done + [Done(c, mode, want, outcome, t.attempts[c])])
  }

  ghost predicate Run<B>(states: seq<State<B>>, actions: seq<Action<B>>, empty: B) {
    && |states| == |actions| + 1
    && Init(states[0])
    && forall i :: 0 <= i < |actions| ==>
                     Enabled(states[i], actions[i], empty) && states[i + 1] == Step(states[i], actions[i], empty)
  }

  // --- The invariant ---

  ghost function HeaderOf<B>(s: State<B>): Option<Header> {
    if s.stored.None? then None else Some(s.stored.value.bytes.header)
  }

  ghost predicate Created<B>(s: State<B>) {
    if s.stored.None? then s.creations == [] else s.creations == [s.stored.value.bytes.header]
  }

  ghost predicate PcOk<B>(s: State<B>, pc: Pc<B>) {
    match pc
    case Idle => true
    case Creating(mode, want) => want.formatVersion == FORMAT_VERSION && !mode.JustOpen?
    case Probing(want) => want.formatVersion == FORMAT_VERSION
    case Reading(mode, want, sure) =>
      && want.formatVersion == FORMAT_VERSION && !mode.JustCreate?
      && (mode.OpenOrCreate? ==> sure) && (sure ==> s.stored.Some?)
    case Holding(want) => want.formatVersion == FORMAT_VERSION && HeaderOf(s) == Some(want)
    case Changing(want, _, doc) =>
      want.formatVersion == FORMAT_VERSION && HeaderOf(s) == Some(want) && doc.header == want
  }

  ghost predicate DoneOk<B>(s: State<B>, d: Done<B>) {
    && d.want.formatVersion == FORMAT_VERSION
    && match d.outcome
       case Opened => HeaderOf(s) == Some(d.want)
       case NotFound => d.mode.JustOpen?
       case Exists => d.mode.JustCreate? && s.stored.Some?
       case Refused(reason) =>
         && !d.mode.JustCreate? && s.stored.Some?
         && Validate(s.stored.value.bytes.header, d.want.kind, d.want.schema) == Some(reason)
       case Failed => true
  }

  ghost predicate Inv<B>(s: State<B>) {
    && Created(s)
    && (forall c :: 0 <= c < |s.pcs| ==> PcOk(s, s.pcs[c]))
    && forall k :: 0 <= k < |s.done| ==> DoneOk(s, s.done[k])
  }

  /** Creation is the only thing that can happen to the header, and it happens once. */
  ghost predicate HeaderKept<B>(s: State<B>, t: State<B>) {
    HeaderOf(s).Some? ==> HeaderOf(t) == HeaderOf(s)
  }

  lemma {:induction false} StepKeepsHeader<B>(s: State<B>, a: Action<B>, empty: B)
    requires Inv(s) && Enabled(s, a, empty)
    ensures HeaderKept(s, Step(s, a, empty)) && Created(Step(s, a, empty))
  {
    assert PcOk(s, s.pcs[a.client]);
  }

  lemma {:induction false} StepMovesOneClient<B>(s: State<B>, a: Action<B>, empty: B)
    requires Inv(s) && Enabled(s, a, empty)
    ensures var t := Step(s, a, empty);
            && |t.pcs| == |s.pcs| && (forall c :: 0 <= c < |s.pcs| && c != a.client ==> t.pcs[c] == s.pcs[c])
            && PcOk(t, t.pcs[a.client])
            && (|| t.done == s.done
                || (&& |t.done| == |s.done| + 1 && t.done == s.done + [t.done[|s.done|]]
                    && DoneOk(t, t.done[|s.done|])))
  {
    assert PcOk(s, s.pcs[a.client]);
  }

  lemma {:induction false} StepKeepsInv<B>(s: State<B>, a: Action<B>, empty: B)
    requires Inv(s) && Enabled(s, a, empty)
    ensures Inv(Step(s, a, empty))
  {
    var t := Step(s, a, empty);
    StepKeepsHeader(s, a, empty);
    StepMovesOneClient(s, a, empty);
    forall c | 0 <= c < |t.pcs| ensures PcOk(t, t.pcs[c]) {
      assert PcOk(s, s.pcs[c]);
    }
    forall k | 0 <= k < |t.done| ensures DoneOk(t, t.done[k]) {
      if k < |s.done| { assert DoneOk(s, s.done[k]); }
    }
  }

  lemma {:induction false} RunKeepsInv<B>(states: seq<State<B>>, actions: seq<Action<B>>, empty: B, n: nat)
    requires Run(states, actions, empty) && n < |states|
    ensures Inv(states[n])
  {
    if n > 0 {
      RunKeepsInv(states, actions, empty, n - 1);
      StepKeepsInv(states[n - 1], actions[n - 1], empty);
    }
  }

  // --- Main theorems ---

  /** The action is a creation attempt. */
  ghost predicate Creates<B>(s: State<B>, a: Action<B>) {
    a.client < |s.pcs| && s.pcs[a.client].Creating?
  }

  /** However creators and openers race: at most one creation ever happens and none overwrites an existing
      object, the object keeps its creator's header for the whole run, everyone who was let in asked for
      exactly that header, everyone turned away for incompatibility asked for another, and a client that
      opens or creates is never told that the object is missing. */
  lemma {:induction false} OneCreator<B>(states: seq<State<B>>, actions: seq<Action<B>>, empty: B, m: nat, n: nat)
    requires Run(states, actions, empty) && m <= n < |states|
    ensures |states[n].creations| <= 1
    ensures HeaderOf(states[n]) == if states[n].creations == [] then None else Some(states[n].creations[0])
    ensures HeaderOf(states[m]).Some? ==> HeaderOf(states[n]) == HeaderOf(states[m])
    ensures forall d <- states[m].done ::
              && (d.outcome.Opened? ==> HeaderOf(states[n]) == Some(d.want))
              && (d.outcome.Refused? ==>
                    HeaderOf(states[n]).Some? && FirstDifference(d.outcome.reason, HeaderOf(states[n]).value, d.want))
              && (d.mode.OpenOrCreate? ==> !d.outcome.NotFound? && !d.outcome.Exists?)
    ensures forall l :: 0 <= l < n && states[l].stored.Some? && Creates(states[l], actions[l]) ==>
                          states[l + 1].stored == states[l].stored
  {
    forall l | 0 <= l < n && states[l].stored.Some? && Creates(states[l], actions[l])
      ensures states[l + 1].stored == states[l].stored
    {
      CreationNeverOverwrites(states, actions, empty, l);
    }
    RunKeepsInv(states, actions, empty, n);
    RunKeepsInv(states, actions, empty, m);
    HeaderLasts(states, actions, empty, m, n);
    forall d | d in states[m].done
      ensures DoneOk(states[m], d)
      ensures d.outcome.Refused? ==> FirstDifference(d.outcome.reason, HeaderOf(states[m]).value, d.want)
    {
      var k :| 0 <= k < |states[m].done| && states[m].done[k] == d;
      assert DoneOk(states[m], states[m].done[k]);
      if d.outcome.Refused? { ReasonIsFirstDifference(HeaderOf(states[m]).value, d.want.kind, d.want.schema); }
    }
  }

  lemma {:induction false} HeaderLasts<B>(states: seq<State<B>>, actions: seq<Action<B>>, empty: B, m: nat, n: nat)
    requires Run(states, actions, empty) && m <= n < |states|
    ensures HeaderKept(states[m], states[n])
    decreases n
  {
    if m < n {
      HeaderLasts(states, actions, empty, m, n - 1);
      RunKeepsInv(states, actions, empty, n - 1);
      StepKeepsHeader(states[n - 1], actions[n - 1], empty);
    }
  }

  /** A creation step leaves an existing object exactly as it was. */
  lemma {:induction false} CreationNeverOverwrites<B>(states: seq<State<B>>, actions: seq<Action<B>>, empty: B, n: nat)
    requires Run(states, actions, empty) && n < |actions|
    requires states[n].stored.Some? && Creates(states[n], actions[n])
    ensures states[n + 1].stored == states[n].stored
  {
    assert Enabled(states[n], actions[n], empty);
  }

  // --- Outcomes ---

  ghost function Create<B>(want: Header, empty: B): StoreOp<Content<B>> {
    StoreOp.Create(Content(want, empty))
  }

  /** The exchanges of a finished attempt: creating and opening take one; opening or creating looks first, then opens
      what is there, or creates, and opens if somebody else was faster. */
  ghost predicate Course<B>(a: Attempt<B>, empty: B) {
    match a.mode
    case JustCreate => |a.trace| == 1 && a.trace[0].op == Create(a.want, empty)
    case JustOpen => |a.trace| == 1 && a.trace[0].op == Get
    case OpenOrCreate =>
      && 1 <= |a.trace| <= 3 && a.trace[0].op == Get
      && match a.trace[0].reply
         case Found(None) =>
           && |a.trace| >= 2 && a.trace[1].op == Create(a.want, empty)
           && if a.trace[1].reply.AlreadyExists? then |a.trace| == 3 && a.trace[2].op == Get else |a.trace| == 2
         case Found(Some(_)) => |a.trace| == 2 && a.trace[1].op == Get
         case _ => |a.trace| == 1
  }

  /** What the exchanges mean: a failure exactly after a store error; existence exactly if creating alone was refused;
      absence exactly if opening alone found nothing; otherwise the client is let in exactly if its creation
      was answered with success or the header it read last is the one asked for, and else
      learns the first difference. */
  ghost predicate Means<B>(a: Attempt<B>, outcome: Outcome)
    requires a.trace != []
  {
    var last := a.trace[|a.trace| - 1].reply;
    && (outcome.Failed? <==> exists x <- a.trace :: x.reply.StoreError?)
    && (outcome.Exists? <==> a.mode.JustCreate? && last.AlreadyExists?)
    && (outcome.NotFound? <==> a.mode.JustOpen? && last == Found(None))
    && (outcome.Opened? <==>
          last.Wrote? || (last.Found? && last.found.Some? && last.found.value.bytes.header == a.want))
    && (outcome.Refused? <==> last.Found? && last.found.Some? && last.found.value.bytes.header != a.want)
    && (outcome.Refused? ==> FirstDifference(outcome.reason, last.found.value.bytes.header, a.want))
  }

  /** What a client in the middle of its attempt has behind it. */
  ghost predicate Underway<B>(pc: Pc<B>, a: Attempt<B>, empty: B) {
    match pc
    case Creating(mode, want) =>
      && mode == a.mode && want == a.want && want.formatVersion == FORMAT_VERSION
      && !mode.JustOpen?
      && a.trace == if mode.JustCreate? then [] else [Exchange(StoreOp.Get, Found(None))]
    case Probing(want) =>
      a.mode.OpenOrCreate? && want == a.want && want.formatVersion == FORMAT_VERSION && a.trace == []
    case Reading(mode, want, _) =>
      && mode == a.mode && want == a.want && want.formatVersion == FORMAT_VERSION
      && !mode.JustCreate?
      && if mode.JustOpen? then a.trace == [] else Looked(a, empty)
    case _ => true
  }

  /** The object was seen, or somebody else was faster in creating it. */
  ghost predicate Looked<B>(a: Attempt<B>, empty: B) {
    && 1 <= |a.trace| <= 2 && a.trace[0].op == Get && a.trace[0].reply.Found?
    && if |a.trace| == 1 then a.trace[0].reply.found.Some?
       else
         && a.trace[0].reply.found.None?
         && a.trace[1].op == Create(a.want, empty) && a.trace[1].reply.AlreadyExists?
  }

  ghost predicate DoneTrue<B>(d: Done<B>, empty: B) {
    && d.mode == d.attempt.mode && d.want == d.attempt.want
    && d.attempt.trace != [] && Course(d.attempt, empty) && Means(d.attempt, d.outcome)
  }

  ghost predicate AllTrue<B>(s: State<B>, empty: B) {
    && |s.attempts| == |s.pcs|
    && (forall c :: 0 <= c < |s.pcs| ==> Underway(s.pcs[c], s.attempts[c], empty))
    && forall k :: 0 <= k < |s.done| ==> DoneTrue(s.done[k], empty)
  }

  /** Only client `c` moves; its attempt goes on as it should, or ends with a true outcome. */
  ghost predicate TrueMove<B>(s: State<B>, t: State<B>, c: nat, empty: B) {
    && c < |s.pcs| == |s.attempts| && |t.attempts| == |t.pcs| == |s.pcs|
    && Underway(t.pcs[c], t.attempts[c], empty)
    && (forall b :: 0 <= b < |s.pcs| && b != c ==> t.pcs[b] == s.pcs[b] && t.attempts[b] == s.attempts[b])
    && (|| t.done == s.done
        || (&& |t.done| == |s.done| + 1 && t.done == s.done + [t.done[|s.done|]]
            && DoneTrue(t.done[|s.done|], empty)))
  }

  lemma {:induction false} CreatingIsTrue<B>(s: State<B>, a: Action<B>, empty: B)
    requires Enabled(s, a, empty) && Underway(s.pcs[a.client], s.attempts[a.client], empty)
    requires PcOk(s, s.pcs[a.client]) && a.Touch? && s.pcs[a.client].Creating?
    ensures TrueMove(s, Step(s, a, empty), a.client, empty)
  {
  }

  lemma {:induction false} ProbingIsTrue<B>(s: State<B>, a: Action<B>, empty: B)
    requires Enabled(s, a, empty) && Underway(s.pcs[a.client], s.attempts[a.client], empty)
    requires PcOk(s, s.pcs[a.client]) && a.Touch? && s.pcs[a.client].Probing?
    ensures TrueMove(s, Step(s, a, empty), a.client, empty)
  {
  }

  lemma {:induction false} ReadingIsTrue<B>(s: State<B>, a: Action<B>, empty: B)
    requires Enabled(s, a, empty) && Underway(s.pcs[a.client], s.attempts[a.client], empty)
    requires PcOk(s, s.pcs[a.client]) && a.Touch? && s.pcs[a.client].Reading?
    ensures TrueMove(s, Step(s, a, empty), a.client, empty)
  {
    var w := s.pcs[a.client].want;
    if a.reply.Found? && a.reply.found.Some? {
      ReasonIsFirstDifference(a.reply.found.value.bytes.header, w.kind, w.schema);
    }
  }

  lemma {:induction false} OtherwiseIsTrue<B>(s: State<B>, a: Action<B>, empty: B)
    requires Enabled(s, a, empty) && Underway(s.pcs[a.client], s.attempts[a.client], empty)
    requires PcOk(s, s.pcs[a.client])
    requires !a.Touch? || s.pcs[a.client].Idle? || s.pcs[a.client].Holding? || s.pcs[a.client].Changing?
    ensures TrueMove(s, Step(s, a, empty), a.client, empty)
  {
  }

  lemma {:induction false} StepIsTrue<B>(s: State<B>, a: Action<B>, empty: B)
    requires Enabled(s, a, empty) && Underway(s.pcs[a.client], s.attempts[a.client], empty)
    requires PcOk(s, s.pcs[a.client])
    ensures TrueMove(s, Step(s, a, empty), a.client, empty)
  {
    if a.Touch? && s.pcs[a.client].Creating? {
      CreatingIsTrue(s, a, empty);
    } else if a.Touch? && s.pcs[a.client].Probing? {
      ProbingIsTrue(s, a, empty);
    } else if a.Touch? && s.pcs[a.client].Reading? {
      ReadingIsTrue(s, a, empty);
    } else {
      OtherwiseIsTrue(s, a, empty);
    }
  }

  lemma {:induction false} RunIsTrue<B>(states: seq<State<B>>, actions: seq<Action<B>>, empty: B, n: nat)
    requires Run(states, actions, empty) && n < |states|
    ensures AllTrue(states[n], empty)
  {
    if n > 0 {
      RunIsTrue(states, actions, empty, n - 1);
      RunKeepsInv(states, actions, empty, n - 1);
      StepIsTrue(states[n - 1], actions[n - 1], empty);
    }
  }

  /** Step m is an exchange of client `c` with the store as it was then. */
  ghost predicate ExchangedAt<B>(
    states: seq<State<B>>, actions: seq<Action<B>>, m: nat, c: nat, x: Exchange<B>)
    requires m < |actions| && m + 1 < |states|
  {
    && actions[m].Touch? && actions[m].client == c && actions[m].reply == x.reply
    && Contract(states[m].stored, x.op, x.reply, states[m + 1].stored, states[m].used)
  }

  /** The client began the attempt at step `begun` and made its exchanges at the steps `places`. */
  ghost predicate HappenedAt<B>(
    states: seq<State<B>>, actions: seq<Action<B>>, n: nat, c: nat, a: Attempt<B>, begun: nat, places: seq<nat>)
    requires n <= |actions| < |states|
  {
    && begun < n && actions[begun] == Begin(c, a.mode, a.want) && |places| == |a.trace|
    && (forall j :: 0 <= j < |places| ==>
                      begun < places[j] < n && ExchangedAt(states, actions, places[j], c, a.trace[j]))
    && forall j, k :: 0 <= j < k < |places| ==> places[j] < places[k]
  }

  ghost predicate Happened<B>(states: seq<State<B>>, actions: seq<Action<B>>, n: nat, c: nat, a: Attempt<B>)
    requires n <= |actions| < |states|
  {
    exists begun, places :: HappenedAt(states, actions, n, c, a, begun, places)
  }

  lemma {:induction false} HappenedLater<B>(
    states: seq<State<B>>, actions: seq<Action<B>>, n: nat, c: nat, a: Attempt<B>)
    requires n < |actions| < |states| && Happened(states, actions, n, c, a)
    ensures Happened(states, actions, n + 1, c, a)
  {
    var begun, places :| HappenedAt(states, actions, n, c, a, begun, places);
    assert HappenedAt(states, actions, n + 1, c, a, begun, places);
  }

  lemma {:induction false} HappenedNext<B>(
    states: seq<State<B>>, actions: seq<Action<B>>, n: nat, c: nat, a: Attempt<B>, x: Exchange<B>)
    requires n < |actions| < |states| && Happened(states, actions, n, c, a) && ExchangedAt(states, actions, n, c, x)
    ensures Happened(states, actions, n + 1, c, a.(trace := a.trace + [x]))
  {
    var begun, places :| HappenedAt(states, actions, n, c, a, begun, places);
    assert HappenedAt(states, actions, n + 1, c, a.(trace := a.trace + [x]), begun, places + [n]);
  }

  /** How one step extends the records of client `c`. */
  ghost predicate Recorded<B>(s: State<B>, t: State<B>, a: Action<B>, empty: B) {
    var c := a.client;
    && c < |s.pcs| == |s.attempts| == |t.attempts|
    && (forall b :: 0 <= b < |s.pcs| && b != c ==> t.attempts[b] == s.attempts[b])
    && (match a
        case Begin(_, mode, want) => t.attempts[c] == Attempt(mode, want, [])
        case Close(_) => t.attempts[c] == s.attempts[c]
        case Touch(_, reply, post, _) =>
          var x := Exchange(OpOf(s.pcs[c], empty), reply);
          && t.attempts[c] == s.attempts[c].(trace := s.attempts[c].trace + [x])
          && Contract(s.stored, x.op, reply, t.stored, s.used))
    && (|| t.done == s.done
        || (&& |t.done| == |s.done| + 1 && t.done == s.done + [t.done[|s.done|]]
            && t.done[|s.done|].client == c && t.done[|s.done|].attempt == t.attempts[c]))
  }

  lemma {:induction false} StepRecords<B>(s: State<B>, a: Action<B>, empty: B)
    requires Enabled(s, a, empty)
    ensures Recorded(s, Step(s, a, empty), a, empty)
  {
  }

  /** Every client that is not idle for good has begun, and all records happened. */
  ghost predicate AllHappened<B>(states: seq<State<B>>, actions: seq<Action<B>>, n: nat)
    requires n <= |actions| < |states|
  {
    var s := states[n];
    && |s.attempts| == |s.pcs|
    && (forall c :: 0 <= c < |s.pcs| && !s.pcs[c].Idle? ==> Happened(states, actions, n, c, s.attempts[c]))
    && forall k :: 0 <= k < |s.done| ==> Happened(states, actions, n, s.done[k].client, s.done[k].attempt)
  }

  lemma {:induction false} StepsHappen<B>(states: seq<State<B>>, actions: seq<Action<B>>, n: nat, empty: B)
    requires n < |actions| < |states| && AllHappened(states, actions, n)
    requires Enabled(states[n], actions[n], empty) && Recorded(states[n], states[n + 1], actions[n], empty)
    requires |states[n + 1].pcs| == |states[n].pcs|
    requires forall b :: 0 <= b < |states[n].pcs| && b != actions[n].client ==> states[n + 1].pcs[b] == states[n].pcs[b]
    ensures AllHappened(states, actions, n + 1)
  {
    var s, t, a, c := states[n], states[n + 1], actions[n], actions[n].client;
    MovingHappens(states, actions, n, empty);
    forall b | 0 <= b < |t.pcs| && !t.pcs[b].Idle? ensures Happened(states, actions, n + 1, b, t.attempts[b]) {
      if b != c { HappenedLater(states, actions, n, b, s.attempts[b]); }
    }
    forall k | 0 <= k < |t.done| ensures Happened(states, actions, n + 1, t.done[k].client, t.done[k].attempt) {
      if k < |s.done| { HappenedLater(states, actions, n, s.done[k].client, s.done[k].attempt); }
    }
  }

  lemma {:induction false} MovingHappens<B>(states: seq<State<B>>, actions: seq<Action<B>>, n: nat, empty: B)
    requires n < |actions| < |states| && AllHappened(states, actions, n)
    requires Enabled(states[n], actions[n], empty) && Recorded(states[n], states[n + 1], actions[n], empty)
    ensures Happened(states, actions, n + 1, actions[n].client, states[n + 1].attempts[actions[n].client])
  {
    var s, t, a, c := states[n], states[n + 1], actions[n], actions[n].client;
    match a
    case Begin(_, _, _) => assert HappenedAt(states, actions, n + 1, c, t.attempts[c], n, []);
    case Close(_) => HappenedLater(states, actions, n, c, s.attempts[c]);
    case Touch(_, reply, _, _) =>
      var x := Exchange(OpOf(s.pcs[c], empty), reply);
      assert ExchangedAt(states, actions, n, c, x);
      HappenedNext(states, actions, n, c, s.attempts[c], x);
  }

  lemma {:induction false} RunHappens<B>(states: seq<State<B>>, actions: seq<Action<B>>, empty: B, n: nat)
    requires Run(states, actions, empty) && n < |states|
    ensures AllHappened(states, actions, n)
  {
    if n > 0 {
      RunHappens(states, actions, empty, n - 1);
      RunKeepsInv(states, actions, empty, n - 1);
      StepRecords(states[n - 1], actions[n - 1], empty);
      StepMovesOneClient(states[n - 1], actions[n - 1], empty);
      StepsHappen(states, actions, n - 1, empty);
    }
  }

  /** In every run, however clients race: what a client is told of its attempt is exactly what its exchanges mean, they
      are those its request calls for, and they were made by it, in this order, with the store as it then was. */
  lemma {:induction false} OutcomesAreTrue<B>(states: seq<State<B>>, actions: seq<Action<B>>, empty: B, n: nat)
    requires Run(states, actions, empty) && n < |states|
    ensures forall d <- states[n].done :: DoneTrue(d, empty) && Happened(states, actions, n, d.client, d.attempt)
  {
    RunIsTrue(states, actions, empty, n);
    RunHappens(states, actions, empty, n);
  }

  /** After this reply the attempt takes another exchange. */
  predicate GoesOn<B>(pc: Pc<B>, reply: StoreReply<Content<B>>) {
    (pc.Probing? && reply.Found?) || (pc.Creating? && pc.mode.OpenOrCreate? && reply.AlreadyExists?)
  }

  /** In every run an attempt is over and told in the very step in which its last exchange is answered. */
  lemma {:induction false} EveryAttemptIsTold<B>(
    states: seq<State<B>>, actions: seq<Action<B>>, empty: B, m: nat)
    requires Run(states, actions, empty) && m < |actions| && actions[m].Touch?
    ensures var s, t, a := states[m], states[m + 1], actions[m];
            && a.client < |s.pcs| == |t.pcs|
            && var pc := s.pcs[a.client];
               if (pc.Creating? || pc.Probing? || pc.Reading?) && !GoesOn(pc, a.reply) then
                 && |t.done| == |s.done| + 1 && t.done[..|s.done|] == s.done
                 && t.done[|s.done|].client == a.client && (t.pcs[a.client].Idle? || t.pcs[a.client].Holding?)
               else
                 && t.done == s.done && !t.pcs[a.client].Idle?
                 && (pc.Changing? ==> t.pcs[a.client] == Holding(pc.want))
  {
    assert Enabled(states[m], actions[m], empty);
  }

  // --- Clients that nobody disturbs ---

  /** What a working store answers, and what it holds then. */
  function Undisturbed<T>(stored: Option<Object<T>>, op: StoreOp<T>, version: Version)
    : (StoreReply<T>, Option<Object<T>>)
  {
    match op
    case Get => (Found(stored), stored)
    case Create(bytes) =>
      if stored.Some? then (AlreadyExists(stored.value.version), stored)
      else (Wrote(version), Some(Object(bytes, version)))
    case Replace(expected, bytes) =>
      if VersionOf(stored) == Some(expected) then (Wrote(version), Some(Object(bytes, version)))
      else (Conflict(VersionOf(stored)), stored)
  }

  lemma {:induction false} OneMore<B>(
    states: seq<State<B>>, actions: seq<Action<B>>, empty: B, a: Action<B>)
    returns (more: seq<State<B>>, acts: seq<Action<B>>, t: State<B>)
    requires Run(states, actions, empty) && Enabled(states[|actions|], a, empty)
    ensures t == Step(states[|actions|], a, empty) && more == states + [t] && acts == actions + [a]
    ensures Run(more, acts, empty)
  {
    t := Step(states[|actions|], a, empty);
    more, acts := states + [t], actions + [a];
    forall i | 0 <= i < |acts|
      ensures Enabled(more[i], acts[i], empty) && more[i + 1] == Step(more[i], acts[i], empty)
    {
      if i < |actions| { assert more[i] == states[i] && more[i + 1] == states[i + 1] && acts[i] == actions[i]; }
    }
  }

  /** Client `c` goes on once, and nobody interferes. */
  lemma {:induction false} Onward<B>(
    states: seq<State<B>>, actions: seq<Action<B>>, empty: B, c: nat, body: B, version: Version)
    returns (more: seq<State<B>>, acts: seq<Action<B>>, t: State<B>)
    requires Run(states, actions, empty)
    requires var s := states[|actions|];
             && c < |s.pcs| == |s.attempts| && !s.pcs[c].Idle?
             && (Accepts(s.stored, OpOf(s.pcs[c], empty)) ==> version !in s.used)
    ensures Run(more, acts, empty) && states <= more && actions <= acts && t == more[|acts|]
    ensures var s := states[|actions|];
            var (reply, post) := Undisturbed(s.stored, OpOf(s.pcs[c], empty), version);
            && Enabled(s, Touch(c, reply, post, body), empty) && t == Step(s, Touch(c, reply, post, body), empty)
  {
    var s := states[|actions|];
    var (reply, post) := Undisturbed(s.stored, OpOf(s.pcs[c], empty), version);
    more, acts, t := OneMore(states, actions, empty, Touch(c, reply, post, body));
  }

  /** The outcome of an attempt on what is stored, if nobody interferes. */
  ghost function SoloOutcome<B>(stored: Option<Object<Content<B>>>, mode: Mode, want: Header): Outcome {
    match mode
    case JustCreate => if stored.None? then Opened else Exists
    case JustOpen => if stored.None? then NotFound else Check(stored.value.bytes.header, want)
    case OpenOrCreate => if stored.None? then Opened else Check(stored.value.bytes.header, want)
  }

  /** Client `c`, and nobody else, has made an attempt between `s` and `t`. */
  ghost predicate Attempted<B>(s: State<B>, t: State<B>, c: nat, mode: Mode, want: Header, empty: B, version: Version) {
    && |t.done| == |s.done| + 1 && t.done[..|s.done|] == s.done
    && var d, outcome := t.done[|s.done|], SoloOutcome(s.stored, mode, want);
       && d.client == c && d.mode == mode && d.want == want && d.outcome == outcome
       && c < |t.pcs| && t.pcs[c] == (if outcome.Opened? then Holding(want) else Idle)
       && t.stored
          == if s.stored.None? && !mode.JustOpen? then Some(Object(Content(want, empty), version)) else s.stored
  }

  lemma {:induction false} UndisturbedSingle<B>(
    states: seq<State<B>>, actions: seq<Action<B>>, empty: B, c: nat, mode: Mode, want: Header, version: Version)
    returns (more: seq<State<B>>, acts: seq<Action<B>>)
    requires Run(states, actions, empty) && want.formatVersion == FORMAT_VERSION && !mode.OpenOrCreate?
    requires var s := states[|actions|];
             c < |s.pcs| == |s.attempts| && s.pcs[c].Idle? && version !in s.used
    ensures Run(more, acts, empty) && states <= more && actions <= acts
    ensures Attempted(states[|actions|], more[|acts|], c, mode, want, empty, version)
  {
    var t;
    more, acts, t := OneMore(states, actions, empty, Begin(c, mode, want));
    more, acts, t := Onward(more, acts, empty, c, empty, version);
  }

  lemma {:induction false} UndisturbedDouble<B>(
    states: seq<State<B>>, actions: seq<Action<B>>, empty: B, c: nat, mode: Mode, want: Header, version: Version)
    returns (more: seq<State<B>>, acts: seq<Action<B>>)
    requires Run(states, actions, empty) && want.formatVersion == FORMAT_VERSION && mode.OpenOrCreate?
    requires var s := states[|actions|];
             c < |s.pcs| == |s.attempts| && s.pcs[c].Idle? && version !in s.used
    ensures Run(more, acts, empty) && states <= more && actions <= acts
    ensures Attempted(states[|actions|], more[|acts|], c, mode, want, empty, version)
  {
    var t;
    more, acts, t := OneMore(states, actions, empty, Begin(c, mode, want));
    more, acts, t := Onward(more, acts, empty, c, empty, version);
    more, acts, t := Onward(more, acts, empty, c, empty, version);
  }

  /** Whatever has happened, an attempt that nobody disturbs comes to its end: creating alone succeeds exactly without
      an object, opening alone exactly with a fitting one, opening or creating in both cases; and only a
      creation writes. */
  lemma {:induction false} UndisturbedAttempt<B>(
    states: seq<State<B>>, actions: seq<Action<B>>, empty: B, c: nat, mode: Mode, want: Header, version: Version)
    returns (more: seq<State<B>>, acts: seq<Action<B>>)
    requires Run(states, actions, empty) && want.formatVersion == FORMAT_VERSION
    requires var s := states[|actions|];
             c < |s.pcs| == |s.attempts| && s.pcs[c].Idle? && version !in s.used
    ensures Run(more, acts, empty) && states <= more && actions <= acts
    ensures Attempted(states[|actions|], more[|acts|], c, mode, want, empty, version)
  {
    if mode.OpenOrCreate? {
      more, acts := UndisturbedDouble(states, actions, empty, c, mode, want, version);
    } else {
      more, acts := UndisturbedSingle(states, actions, empty, c, mode, want, version);
    }
  }

  /** A client with an open handle that nobody disturbs replaces the body and nothing else, and keeps its handle. */
  lemma {:induction false} UndisturbedChange<B>(
    states: seq<State<B>>, actions: seq<Action<B>>, empty: B, c: nat, body: B, version: Version)
    returns (more: seq<State<B>>, acts: seq<Action<B>>)
    requires Run(states, actions, empty)
    requires var s := states[|actions|];
             && c < |s.pcs| == |s.attempts| && s.pcs[c].Holding?
             && version !in s.used && VersionOf(s.stored) != Some(version)
    ensures Run(more, acts, empty) && states <= more && actions <= acts
    ensures var s, t := states[|actions|], more[|acts|];
            && s.stored.Some? && t.stored == Some(Object(Content(s.stored.value.bytes.header, body), version))
            && t.pcs == s.pcs && t.done == s.done
  {
    var s, t := states[|actions|], states[|actions|];
    RunKeepsInv(states, actions, empty, |actions|);
    assert PcOk(s, s.pcs[c]);
    more, acts, t := Onward(states, actions, empty, c, body, version);
    more, acts, t := Onward(more, acts, empty, c, body, version);
  }

  // --- The operations themselves, on the memory store ---

  /** Creates the structure, failing if there is an object already. */
  method CreateStructure<B>(
    store: MemoryStore<Content<B>>, location: Location, want: Header, empty: B) returns (r: Outcome)
    requires store.Valid() && store.nextVersion < U64_MAX
    modifies store
    ensures store.Valid()
    ensures r == if At(old(store.State()), location).None? then Opened else Exists
    ensures At(old(store.State()), location).Some? ==> store.State() == old(store.State())
    ensures forall other :: other != location ==> At(store.State(), other) == At(old(store.State()), other)
    ensures r.Opened? ==>
              At(store.State(), location).Some? && At(store.State(), location).value.bytes == Content(want, empty)
  {
    var reply := store.Create(location, Content(want, empty));
    r := if reply.Wrote? then Opened else Exists;
  }

  /** Opens the structure, validating what is stored. */
  method OpenStructure<B>(store: MemoryStore<Content<B>>, location: Location, want: Header) returns (r: Outcome)
    ensures var asked := Header(FORMAT_VERSION, want.kind, want.schema);
            match At(store.State(), location)
            case None => r == NotFound
            case Some(stored) =>
              && (r == Opened <==> stored.bytes.header == asked)
              && (r == Opened || (r.Refused? && FirstDifference(r.reason, stored.bytes.header, asked)))
  {
    var found := store.Get(location);
    if found.Some? { ReasonIsFirstDifference(found.value.bytes.header, want.kind, want.schema); }
    r := if found.None? then NotFound else Check(found.value.bytes.header, want);
  }

  /** Opens the structure or creates it. `rival` is what another client creates, if it does, between the
      first look and the creation. */
  method OpenOrCreateStructure<B>(
    store: MemoryStore<Content<B>>, location: Location, want: Header, empty: B,
    rival: Option<Content<B>>)
    returns (r: Outcome)
    requires store.Valid() && store.nextVersion + 1 < U64_MAX && want.formatVersion == FORMAT_VERSION
    modifies store
    ensures store.Valid()
    ensures var before, after := At(old(store.State()), location), At(store.State(), location);
            && after.Some?
            && (before.Some? ==> after == before)
            && (forall other :: other != location ==> At(store.State(), other) == At(old(store.State()), other))
            && (before.None? ==> after.value.bytes == if rival.Some? then rival.value else Content(want, empty))
            && (r == Opened <==> after.value.bytes.header == want)
            && (r == Opened || (r.Refused? && FirstDifference(r.reason, after.value.bytes.header, want)))
  {
    var found := store.Get(location);
    if found.Some? {
      r := OpenStructure(store, location, want);
      return;
    }
    if rival.Some? {
      var other := store.Create(location, rival.value);
    }
    var reply := store.Create(location, Content(want, empty));
    if reply.Wrote? {
      r := Opened;
    } else {
      r := OpenStructure(store, location, want);
    }
  }
}
