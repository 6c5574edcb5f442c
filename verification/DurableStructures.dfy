/** From the disk to the structure: clients that read, decide and conditionally replace on the filesystem
    store build a history of the structure, and a crash cuts it back to a prefix that holds everything
    answered. Documents are stored as text, which is taken to be lossless. */
module DurableStructures {
  import opened Prelude
  import opened StoreContract
  import opened CasProtocol
  import opened Bytes
  import opened Disks
  import FS = Filesystems
  import opened FilesystemRefinement
  import opened FilesystemTraces
  import opened FilesystemDurability

  /** How documents are written into objects. */
  datatype Codec<!D> = Codec(text: D -> seq<byte>, parse: seq<byte> -> D)

  ghost predicate Lossless<D(!new)>(codec: Codec<D>) {
    forall d: D :: codec.parse(codec.text(d)) == d
  }

  /** One structure as its clients know it. */
  datatype Service<!D, !O, !R> = Service(sys: Structure<D, O, R>, empty: D, codec: Codec<D>)

  /** What stands behind an effect: nothing but a creation or a stray read, or a call with its fresh identifier,
      the time of its invocation, and the place among the effects of the read it rests on. */
  datatype Script<+O> = Aside | Script(op: O, draw: Uuid, call: nat, snapshot: nat)

  /** A read that found an object. */
  predicate Finds(e: FS.Effect) {
    e.op.Get? && e.answer.Found? && e.answer.found.Some?
  }

  predicate Mutates(e: FS.Effect) {
    e.op.Replace? && e.answer.Wrote?
  }

  /** What the call behind effect `i` decides on the document it read. */
  ghost function DecidedBy<D, O, R>(service: Service<D, O, R>, effects: seq<FS.Effect>, x: Script<O>): Outcome<D, R>
    requires x.Script? && x.snapshot < |effects| && Finds(effects[x.snapshot])
  {
    service.sys.Decide(service.codec.parse(effects[x.snapshot].answer.found.value.bytes), x.op, x.draw)
  }

  /** Effect `i` is what a client of the structure does: the creation of an empty document, a read, or the
      replacement of a document its call read before by what the call makes of it. */
  ghost predicate Follows<D, O, R>(
    service: Service<D, O, R>, effects: seq<FS.Effect>, scripts: seq<Script<O>>, i: nat)
    requires i < |effects| == |scripts|
  {
    match scripts[i]
    case Aside => effects[i].op.Get? || effects[i].op == StoreOp.Create(service.codec.text(service.empty))
    case Script(_, _, _, g) =>
      && g <= i && scripts[g] == scripts[i] && effects[g].op.Get?
      && match effects[i].op
         case Get => g == i
         case Create(_) => false
         case Replace(expected, bytes) =>
           && Finds(effects[g]) && effects[g].answer.found.value.version == expected
           && var decided := DecidedBy(service, effects, scripts[i]);
              decided.Put? && bytes == service.codec.text(decided.doc)
  }

  ghost predicate Scripted<D, O, R>(service: Service<D, O, R>, effects: seq<FS.Effect>, scripts: seq<Script<O>>) {
    && |scripts| == |effects|
    && forall i :: 0 <= i < |effects| ==> Follows(service, effects, scripts, i)
  }

  /** A call takes effect in its committed replace, or in its read if it decides not to write. */
  ghost predicate Enters<D, O, R>(
    service: Service<D, O, R>, effects: seq<FS.Effect>, scripts: seq<Script<O>>, i: nat)
    requires i < |effects| == |scripts|
  {
    && scripts[i].Script? && scripts[i].snapshot < |effects| && Finds(effects[scripts[i].snapshot])
    && if effects[i].op.Get? then DecidedBy(service, effects, scripts[i]).Keep? else Mutates(effects[i])
  }

  /** Every call that takes effect owns its identifier, and none was used in `past`. */
  ghost predicate FreshDraws<D, O, R>(
    service: Service<D, O, R>, effects: seq<FS.Effect>, scripts: seq<Script<O>>, past: seq<Entry<O, R>>)
    requires |scripts| == |effects|
  {
    && DistinctDraws(past)
    && (forall i :: 0 <= i < |effects| && Enters(service, effects, scripts, i) ==>
                      forall e <- past :: e.draw != scripts[i].draw)
    && forall i, j :: 0 <= i < j < |effects|
                      && Enters(service, effects, scripts, i) && Enters(service, effects, scripts, j) ==>
                        scripts[i].draw != scripts[j].draw
  }

  // --- The history that the effects make ---

  ghost function EntryOf<D, O, R>(
    service: Service<D, O, R>, effects: seq<FS.Effect>, scripts: seq<Script<O>>, i: nat): Entry<O, R>
    requires i < |effects| == |scripts| && Enters(service, effects, scripts, i)
  {
    var e, x := effects[i], scripts[i];
    Entry(e.process, x.call, x.op, x.draw, DecidedBy(service, effects, x).result, e.op.Replace?, e.at)
  }

  /** `past`, continued by the calls that take effect among the first `n` effects. */
  ghost function HistoryOf<D, O, R>(
    service: Service<D, O, R>, effects: seq<FS.Effect>, scripts: seq<Script<O>>, past: seq<Entry<O, R>>, n: nat)
    : seq<Entry<O, R>>
    requires n <= |effects| == |scripts|
  {
    if n == 0 then past
    else
      var before := HistoryOf(service, effects, scripts, past, n - 1);
      if Enters(service, effects, scripts, n - 1) then before + [EntryOf(service, effects, scripts, n - 1)] else before
  }

  /** The object holds what the history `h` leaves; an object that was never created has none. */
  ghost predicate Stores<D, O, R>(service: Service<D, O, R>, stored: FS.Stored, h: seq<Entry<O, R>>) {
    match stored
    case None => h == []
    case Some(found) => found.bytes == service.codec.text(DocAfter(service.sys, service.empty, h))
  }

  /** The versions of the object are never reused, and every effect says what it did. */
  ghost predicate Proper(init: FS.Stored, base: set<Version>, effects: seq<FS.Effect>) {
    && Atomic(init, base, effects) && (init.Some? ==> init.value.version in base)
    && forall e <- effects :: !e.answer.StoreError?
  }

  /** The document on which a call takes effect is the stored one of that instant, although it was read
      before. */
  lemma {:induction false} SnapshotIsCurrent<D(!new), O, R>(
    service: Service<D, O, R>, effects: seq<FS.Effect>, scripts: seq<Script<O>>, init: FS.Stored,
    base: set<Version>, i: nat)
    requires Scripted(service, effects, scripts) && Proper(init, base, effects)
    requires i < |effects| && Enters(service, effects, scripts, i)
    ensures effects[scripts[i].snapshot].answer.found == PostAt(init, effects, i)
  {
    var g := scripts[i].snapshot;
    assert Follows(service, effects, scripts, i);
    assert AtomicAt(init, base, effects, i);
    assert AtomicAt(init, base, effects, g);
    VersionNamesObject(init, base, effects, g, i);
  }

  /** The object holds what the history of the effects leaves, after each of them. */
  lemma {:induction false} EffectsReplay<D(!new), O, R>(
    service: Service<D, O, R>, effects: seq<FS.Effect>, scripts: seq<Script<O>>, past: seq<Entry<O, R>>,
    init: FS.Stored, base: set<Version>, n: nat)
    requires Lossless(service.codec) && Scripted(service, effects, scripts) && Proper(init, base, effects)
    requires Legal(service.sys, service.empty, past) && Stores(service, init, past) && n <= |effects|
    ensures var h := HistoryOf(service, effects, scripts, past, n);
            Legal(service.sys, service.empty, h) && Stores(service, PostAt(init, effects, n), h)
  {
    if n > 0 {
      EffectsReplay(service, effects, scripts, past, init, base, n - 1);
      if Enters(service, effects, scripts, n - 1) {
        CallReplays(service, effects, scripts, past, init, base, n - 1);
      } else {
        OtherEffects(service, effects, scripts, init, base, n - 1);
      }
    }
  }

  /** An effect by which no call takes effect leaves the object alone or creates an empty document. */
  lemma {:induction false} OtherEffects<D(!new), O, R>(
    service: Service<D, O, R>, effects: seq<FS.Effect>, scripts: seq<Script<O>>, init: FS.Stored,
    base: set<Version>, i: nat)
    requires Scripted(service, effects, scripts) && Proper(init, base, effects)
    requires i < |effects| && !Enters(service, effects, scripts, i)
    ensures || PostAt(init, effects, i + 1) == PostAt(init, effects, i)
            || (&& PostAt(init, effects, i).None? && PostAt(init, effects, i + 1).Some?
                && PostAt(init, effects, i + 1).value.bytes == service.codec.text(service.empty))
  {
    assert Follows(service, effects, scripts, i);
    assert AtomicAt(init, base, effects, i);
    assert effects[i] in effects;
  }

  lemma {:induction false} CallReplays<D(!new), O, R>(
    service: Service<D, O, R>, effects: seq<FS.Effect>, scripts: seq<Script<O>>, past: seq<Entry<O, R>>,
    init: FS.Stored, base: set<Version>, i: nat)
    requires Lossless(service.codec) && Scripted(service, effects, scripts) && Proper(init, base, effects)
    requires i < |effects| && Enters(service, effects, scripts, i)
    requires var h := HistoryOf(service, effects, scripts, past, i);
             Legal(service.sys, service.empty, h) && Stores(service, PostAt(init, effects, i), h)
    ensures var h := HistoryOf(service, effects, scripts, past, i + 1);
            Legal(service.sys, service.empty, h) && Stores(service, PostAt(init, effects, i + 1), h)
  {
    var h := HistoryOf(service, effects, scripts, past, i);
    var doc := DocAfter(service.sys, service.empty, h);
    SnapshotIsCurrent(service, effects, scripts, init, base, i);
    assert Follows(service, effects, scripts, i);
    assert AtomicAt(init, base, effects, i);
    assert service.codec.parse(PostAt(init, effects, i).value.bytes) == doc;
    LegalAppend(service.sys, service.empty, h, EntryOf(service, effects, scripts, i));
  }

  /** The history continues `past` and holds every call that takes effect. */
  lemma {:induction false} HistoryHolds<D, O, R>(
    service: Service<D, O, R>, effects: seq<FS.Effect>, scripts: seq<Script<O>>, past: seq<Entry<O, R>>, n: nat)
    requires n <= |effects| == |scripts|
    ensures past <= HistoryOf(service, effects, scripts, past, n)
    ensures forall i :: 0 <= i < n && Enters(service, effects, scripts, i) ==>
                          EntryOf(service, effects, scripts, i) in HistoryOf(service, effects, scripts, past, n)
  {
    if n > 0 { HistoryHolds(service, effects, scripts, past, n - 1); }
  }

  /** `e` is the entry of one of the first `n` effects. */
  ghost predicate EntersAs<D, O, R>(
    service: Service<D, O, R>, effects: seq<FS.Effect>, scripts: seq<Script<O>>, n: nat, e: Entry<O, R>)
    requires n <= |effects| == |scripts|
  {
    exists i :: 0 <= i < n && Enters(service, effects, scripts, i) && EntryOf(service, effects, scripts, i) == e
  }

  /** The history holds nothing else. */
  lemma {:induction false} HistoryHoldsOnly<D, O, R>(
    service: Service<D, O, R>, effects: seq<FS.Effect>, scripts: seq<Script<O>>, past: seq<Entry<O, R>>, n: nat)
    requires n <= |effects| == |scripts|
    ensures forall e <- HistoryOf(service, effects, scripts, past, n) ::
              e in past || EntersAs(service, effects, scripts, n, e)
  {
    if n > 0 {
      HistoryHoldsOnly(service, effects, scripts, past, n - 1);
      var before := HistoryOf(service, effects, scripts, past, n - 1);
      forall e | e in HistoryOf(service, effects, scripts, past, n)
        ensures e in past || EntersAs(service, effects, scripts, n, e)
      {
        if e in before {
          if e !in past { EntersLater(service, effects, scripts, n - 1, e); }
        } else {
          assert EntryOf(service, effects, scripts, n - 1) == e;
        }
      }
    }
  }

  lemma {:induction false} EntersLater<D, O, R>(
    service: Service<D, O, R>, effects: seq<FS.Effect>, scripts: seq<Script<O>>, n: nat, e: Entry<O, R>)
    requires n < |effects| == |scripts| && EntersAs(service, effects, scripts, n, e)
    ensures EntersAs(service, effects, scripts, n + 1, e)
  {
    var i :| 0 <= i < n && Enters(service, effects, scripts, i) && EntryOf(service, effects, scripts, i) == e;
    assert Enters(service, effects, scripts, i);
  }

  /** Every entry of the history has its own draw. */
  lemma {:induction false} HistoryDraws<D, O, R>(
    service: Service<D, O, R>, effects: seq<FS.Effect>, scripts: seq<Script<O>>, past: seq<Entry<O, R>>, n: nat)
    requires n <= |effects| == |scripts| && FreshDraws(service, effects, scripts, past)
    ensures DistinctDraws(HistoryOf(service, effects, scripts, past, n))
  {
    if n > 0 {
      HistoryDraws(service, effects, scripts, past, n - 1);
      HistoryHoldsOnly(service, effects, scripts, past, n - 1);
      var before := HistoryOf(service, effects, scripts, past, n - 1);
      if Enters(service, effects, scripts, n - 1) {
        forall e | e in before ensures e.draw != scripts[n - 1].draw {
          if e !in past { NewDraw(service, effects, scripts, past, n - 1, e); }
        }
        OneMoreDraw(before, EntryOf(service, effects, scripts, n - 1));
      }
    }
  }

  lemma {:induction false} NewDraw<D, O, R>(
    service: Service<D, O, R>, effects: seq<FS.Effect>, scripts: seq<Script<O>>, past: seq<Entry<O, R>>, n: nat,
    e: Entry<O, R>)
    requires n < |effects| == |scripts| && FreshDraws(service, effects, scripts, past)
    requires Enters(service, effects, scripts, n) && EntersAs(service, effects, scripts, n, e)
    ensures e.draw != scripts[n].draw
  {
  }

  lemma {:induction false} OneMoreDraw<O, R>(before: seq<Entry<O, R>>, e: Entry<O, R>)
    requires DistinctDraws(before) && forall f <- before :: f.draw != e.draw
    ensures DistinctDraws(before + [e])
  {
    assert forall i :: 0 <= i < |before| ==> before[i] in before;
  }

  // --- Runs and crashes ---

  /** The clients of one structure, working on one location from an object that holds `past`. */
  ghost predicate Serves<D(!new), O, R>(
    service: Service<D, O, R>, start: FS.State,
    effects: seq<FS.Effect>, scripts: seq<Script<O>>, past: seq<Entry<O, R>>)
  {
    && Lossless(service.codec) && Scripted(service, effects, scripts) && FreshDraws(service, effects, scripts, past)
    && Legal(service.sys, service.empty, past) && Stores(service, Current(start.disk), past)
  }

  lemma {:induction false} RunIsProper(states: seq<FS.State>, actions: seq<FS.Action>, n: nat)
    requires FS.Run(states, actions) && n < |states|
    ensures Proper(Current(states[0].disk), Texts(states[0].drawn), states[n].effects)
    ensures Current(states[n].disk) == PostAt(Current(states[0].disk), states[n].effects, |states[n].effects|)
  {
    StoreOfReached(states, actions, n);
    RunIsTraced(states, actions);
    WritesWereRenamed(states, actions, n);
  }

  /** After the first `m` effects of a run, the object holds what their history leaves. */
  lemma {:induction false} ObjectHoldsHistory<D(!new), O, R>(
    service: Service<D, O, R>, states: seq<FS.State>, actions: seq<FS.Action>, scripts: seq<Script<O>>,
    past: seq<Entry<O, R>>, n: nat, m: nat)
    requires FS.Run(states, actions) && n < |states| && m <= |states[n].effects|
    requires Serves(service, states[0], states[n].effects, scripts, past)
    ensures var h := HistoryOf(service, states[n].effects, scripts, past, m);
            && past <= h && Legal(service.sys, service.empty, h) && DistinctDraws(h)
            && Stores(service, PostAt(Current(states[0].disk), states[n].effects, m), h)
  {
    var effects := states[n].effects;
    RunIsProper(states, actions, n);
    EffectsReplay(service, effects, scripts, past, Current(states[0].disk), Texts(states[0].drawn), m);
    HistoryHolds(service, effects, scripts, past, m);
    HistoryDraws(service, effects, scripts, past, m);
  }

  /** Effect `i` is the committed replace of the returned call `d`. */
  ghost predicate ReplacedBy(effects: seq<FS.Effect>, d: FS.Done, i: nat) {
    Performed(effects, d.call, d.op, d.answer, i) && Mutates(effects[i])
  }

  /** A crash at any moment leaves the object holding a history that continues `past`, in which every
      mutation answered successfully has its place; and the store can serve again from there, with that
      history as the past. */
  lemma {:induction false} CrashKeepsHistory<D(!new), O, R>(
    service: Service<D, O, R>, states: seq<FS.State>, actions: seq<FS.Action>, scripts: seq<Script<O>>,
    past: seq<Entry<O, R>>, n: nat, k: nat, after: Disk) returns (kept: nat)
    requires FS.Run(states, actions) && n < |states| && CrashLeaves(states[n].disk, k, after)
    requires Serves(service, states[0], states[n].effects, scripts, past)
    ensures kept <= |states[n].effects|
    ensures var h := HistoryOf(service, states[n].effects, scripts, past, kept);
            && past <= h && Legal(service.sys, service.empty, h) && DistinctDraws(h)
            && Stores(service, Current(after), h)
    ensures forall d <- states[n].done :: d.op.Replace? && d.answer.Wrote? ==>
              exists i :: && 0 <= i < kept && ReplacedBy(states[n].effects, d, i)
                          && Enters(service, states[n].effects, scripts, i)
    ensures FS.Init(Restart(after, states[n].drawn, |states[n].pcs|))
  {
    var effects := states[n].effects;
    kept := CrashKeepsAcknowledgedWrites(states, actions, n, k, after);
    ObjectHoldsHistory(service, states, actions, scripts, past, n, kept);
    forall d | d in states[n].done && d.op.Replace? && d.answer.Wrote?
      ensures exists i :: 0 <= i < kept && ReplacedBy(effects, d, i) && Enters(service, effects, scripts, i)
    {
      var i :| Performed(effects, d.call, d.op, d.answer, i) && i < kept;
      ReplaceEnters(service, effects, scripts, d, i);
    }
  }

  lemma {:induction false} ReplaceEnters<D, O, R>(
    service: Service<D, O, R>, effects: seq<FS.Effect>, scripts: seq<Script<O>>, d: FS.Done, i: nat)
    requires Scripted(service, effects, scripts) && Performed(effects, d.call, d.op, d.answer, i)
    requires d.op.Replace? && d.answer.Wrote?
    ensures ReplacedBy(effects, d, i) && Enters(service, effects, scripts, i)
  {
    assert Follows(service, effects, scripts, i);
  }
}
