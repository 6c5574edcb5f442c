/** The filesystem store keeps the contract of an atomic store, whatever the interleaving and
    whichever steps fail: every call that returned is explained by one atomic operation
    inside it, and the object's file always holds the result of the last one. */
module FilesystemRefinement {
  import opened Prelude
  import opened StoreContract
  import opened Bytes
  import opened Envelopes
  import opened Disks
  import opened Filesystems
  import opened FilesystemTraces

  // --- The abstract store behind a list of effects ---

  ghost function PostAt(init: Stored, effects: seq<Effect>, n: nat): Stored
    requires n <= |effects|
  {
    if n == 0 then init else effects[n - 1].post
  }

  /** Every version the object had before effect `n`, besides those in `base`. */
  ghost function Used(base: set<Version>, effects: seq<Effect>, n: nat): set<Version>
    requires n <= |effects|
  {
    base + set i | 0 <= i < n && effects[i].post.Some? :: effects[i].post.value.version
  }

  ghost predicate AtomicAt(init: Stored, base: set<Version>, effects: seq<Effect>, n: nat)
    requires n < |effects|
  {
    var e := effects[n];
    Contract(PostAt(init, effects, n), e.op, e.answer, e.post, Used(base, effects, n))
  }

  ghost predicate Atomic(init: Stored, base: set<Version>, effects: seq<Effect>) {
    forall n :: 0 <= n < |effects| ==> AtomicAt(init, base, effects, n)
  }

  ghost function Texts(drawn: set<Uuid>): set<Version> {
    set u | u in drawn :: UuidText(u)
  }

  // --- How an answer relates to the effects ---

  ghost predicate Performed(effects: seq<Effect>, call: nat, op: Op, answer: Answer, i: int) {
    0 <= i < |effects| && effects[i].call == call && effects[i].op == op && effects[i].answer == answer
  }

  /** `durable` counts the effects that survive any crash. */
  ghost predicate Reflected(effects: seq<Effect>, durable: nat, call: nat, op: Op, answer: Answer) {
    match answer
    case Wrote(_) => exists i :: Performed(effects, call, op, answer, i) && i < durable
    case StoreError => forall i :: 0 <= i < |effects| && effects[i].call == call ==> effects[i].answer.Wrote?
    case _ => exists i :: Performed(effects, call, op, answer, i)
  }

  ghost predicate NoEffect(effects: seq<Effect>, call: nat) {
    forall i :: 0 <= i < |effects| ==> effects[i].call != call
  }

  // --- The invariant ---

  ghost predicate Locks(s: State) {
    && (forall p :: 0 <= p < |s.pcs| ==> (p in s.readers <==> HoldsLock(s.pcs[p]) && s.pcs[p].op.Get?))
    && (forall p :: 0 <= p < |s.pcs| ==> (s.writer == Some(p) <==> HoldsLock(s.pcs[p]) && !s.pcs[p].op.Get?))
    && (forall p <- s.readers :: p < |s.pcs|)
    && (s.writer.Some? ==> s.writer.value < |s.pcs| && s.readers == {})
  }

  ghost predicate DiskOk(s: State) {
    && Sound(s.disk, s.drawn)
    && |s.marks| == |s.disk.candidates|
  }

  /** The object's file holds the abstract object, and each crash candidate an earlier one. */
  ghost predicate Chain(s: State, init: Stored, base: set<Version>) {
    && Atomic(init, base, s.effects)
    && PostAt(init, s.effects, |s.effects|) == Current(s.disk)
    && Used(base, s.effects, |s.effects|) <= Texts(s.drawn)
  }

  ghost predicate Marks(s: State, init: Stored) {
    |s.disk.candidates| > 0 && MarksFit(s.marks, Objects(s.disk), init, s.effects)
  }

  /** What a crash may leave, candidate by candidate. */
  ghost function Objects(d: Disk): seq<Stored> {
    seq(|d.candidates|, k requires 0 <= k < |d.candidates| => ObjectIn(d.files, d.candidates[k]))
  }

  ghost predicate MarksFit(marks: seq<nat>, objects: seq<Stored>, init: Stored, effects: seq<Effect>) {
    && |marks| == |objects|
    && (forall k :: 0 <= k < |marks| ==> marks[k] <= |effects| && objects[k] == PostAt(init, effects, marks[k]))
    && forall j, k :: 0 <= j < k < |marks| ==> marks[j] < marks[k]
  }

  /** The condition of the write was read under the lock and still holds; its revision is new. */
  ghost predicate Ready(s: State, base: set<Version>, op: Op, revision: Uuid) {
    && !op.Get? && |Payload(op)| <= U64_MAX
    && Accepts(Current(s.disk), op)
    && revision in s.drawn && UuidText(revision) !in Used(base, s.effects, |s.effects|)
  }

  /** The temporary file is private to its publication and filled as far as `stage` says. */
  ghost predicate Private(d: Disk, op: Op, revision: Uuid, stage: Stage, name: Uuid, file: nat) {
    && file in d.files && Some(file) !in d.candidates
    && name in d.temporaries && d.temporaries[name] == file
    && (!stage.Created? ==> d.files[file].data == Envelope(revision, Written(op)))
    && (stage.Flushed? ==> d.files[file].synced)
  }

  ghost predicate ProcessOk(s: State, base: set<Version>, pc: Pc)
    requires |s.marks| > 0
  {
    match pc
    case Idle => true
    case Wants(op, call) => NoEffect(s.effects, call) && |Payload(op)| <= U64_MAX
    case Locked(op, call) => NoEffect(s.effects, call) && |Payload(op)| <= U64_MAX
    case Checked(op, call, revision) => NoEffect(s.effects, call) && Ready(s, base, op, revision)
    case Publishing(op, call, revision, stage, name, file) =>
      && NoEffect(s.effects, call) && Ready(s, base, op, revision)
      && Private(s.disk, op, revision, stage, name, file)
    case Renamed(op, call, revision) =>
      !op.Get? && Reflected(s.effects, s.marks[|s.marks| - 1], call, op, StoreReply.Wrote(UuidText(revision)))
    case CleansUp(op, call, _) => !op.Get? && NoEffect(s.effects, call)
    case Finishing(op, call, answer) => Reflected(s.effects, s.marks[0], call, op, answer)
  }

  ghost predicate Processes(s: State, base: set<Version>)
    requires |s.marks| > 0
  {
    forall p :: 0 <= p < |s.pcs| ==> ProcessOk(s, base, s.pcs[p])
  }

  ghost predicate Answered(s: State)
    requires |s.marks| > 0
  {
    forall k :: 0 <= k < |s.done| ==> DoneOk(s, s.done[k])
  }

  ghost predicate DoneOk(s: State, d: Done)
    requires |s.marks| > 0
  {
    && Reflected(s.effects, s.marks[0], d.call, d.op, d.answer)
    && forall i :: 0 <= i < |s.effects| && s.effects[i].call == d.call ==> s.effects[i].at <= d.returnedAt
  }

  ghost predicate Calls(s: State) {
    && (forall p :: 0 <= p < |s.pcs| && !s.pcs[p].Idle? ==> s.pcs[p].call < s.clock)
    && (forall i :: 0 <= i < |s.effects| ==> s.effects[i].call <= s.effects[i].at < s.clock)
    && (forall k :: 0 <= k < |s.done| ==> s.done[k].call < s.clock)
    && (forall p, q :: 0 <= p < q < |s.pcs| && !s.pcs[p].Idle? && !s.pcs[q].Idle? ==> s.pcs[p].call != s.pcs[q].call)
    && (forall p, k :: 0 <= p < |s.pcs| && !s.pcs[p].Idle? && 0 <= k < |s.done| ==> s.done[k].call != s.pcs[p].call)
  }

  ghost predicate Order(s: State) {
    && (forall i, j :: 0 <= i < j < |s.effects| ==> s.effects[i].call != s.effects[j].call)
    && (forall i, j :: 0 <= i < j < |s.effects| ==> s.effects[i].at < s.effects[j].at)
    && (forall i :: 0 <= i < |s.effects| ==> s.effects[i].at < s.clock)
  }

  ghost predicate Inv(s: State, init: Stored, base: set<Version>) {
    && Locks(s) && DiskOk(s) && Marks(s, init) && Chain(s, init, base)
    && Processes(s, base) && Answered(s) && Calls(s) && Order(s)
  }

  // --- Steps that leave the disk and the effects alone ---

  /** `t` is `s` with another control point for process `p`, possibly a call returned, and the
      locks of `p` changed. */
  ghost predicate Quiet(s: State, t: State, p: nat) {
    && p < |s.pcs|
    && t.disk == s.disk && t.effects == s.effects && t.marks == s.marks
    && s.drawn <= t.drawn && t.clock == s.clock + 1
    && |t.pcs| == |s.pcs| && forall q :: 0 <= q < |s.pcs| && q != p ==> t.pcs[q] == s.pcs[q]
  }

  lemma {:induction false} QuietKeepsStore(s: State, t: State, p: nat, init: Stored, base: set<Version>)
    requires Quiet(s, t, p) && DiskOk(s) && Marks(s, init) && Chain(s, init, base) && Order(s)
    ensures DiskOk(t) && Marks(t, init) && Chain(t, init, base) && Order(t)
  {
    SoundGrows(s.disk, s.drawn, t.drawn);
    assert Texts(s.drawn) <= Texts(t.drawn);
  }

  lemma {:induction false} QuietKeepsProcesses(s: State, t: State, p: nat, base: set<Version>)
    requires Quiet(s, t, p) && |s.marks| > 0 && Processes(s, base) && ProcessOk(t, base, t.pcs[p])
    ensures Processes(t, base)
  {
    forall q | 0 <= q < |t.pcs| ensures ProcessOk(t, base, t.pcs[q]) {
      if q != p {
        assert ProcessOk(s, base, s.pcs[q]);
      }
    }
  }

  lemma {:induction false} QuietStepKeepsInv(s: State, a: Action, init: Stored, base: set<Version>)
    requires Inv(s, init, base) && Enabled(s, a)
    requires Quiet(s, Step(s, a), a.process)
    requires ProcessOk(Step(s, a), base, Step(s, a).pcs[a.process])
    ensures Inv(Step(s, a), init, base)
  {
    var t := Step(s, a);
    QuietKeepsStore(s, t, a.process, init, base);
    QuietKeepsProcesses(s, t, a.process, base);
    StepKeepsLocks(s, a);
    StepKeepsCalls(s, a);
    StepKeepsAnswered(s, a, base);
  }

  // --- Locks and names, for every step ---

  /** How a step moves the locks. */
  ghost predicate LockShape(s: State, t: State, a: Action) {
    var p := a.process;
    && p < |s.pcs| && |t.pcs| == |s.pcs| && (forall q :: 0 <= q < |s.pcs| && q != p ==> t.pcs[q] == s.pcs[q])
    && if a.Acquire? then
         && s.pcs[p].Wants? && HoldsLock(t.pcs[p]) && t.pcs[p].op == s.pcs[p].op
         && t.readers == (if s.pcs[p].op.Get? then s.readers + {p} else s.readers)
         && t.writer == (if s.pcs[p].op.Get? then s.writer else Some(p))
         && s.writer == None && (!s.pcs[p].op.Get? ==> s.readers == {})
       else if a.Release? || a.Die? then
         && t.pcs[p].Idle? && t.readers == s.readers - {p}
         && t.writer == (if s.writer == Some(p) then None else s.writer)
       else
         && t.readers == s.readers && t.writer == s.writer
         && HoldsLock(t.pcs[p]) == HoldsLock(s.pcs[p]) && (HoldsLock(s.pcs[p]) ==> t.pcs[p].op == s.pcs[p].op)
  }

  lemma {:induction false} StepMovesLocks(s: State, a: Action)
    requires Enabled(s, a)
    ensures LockShape(s, Step(s, a), a)
  {
  }

  lemma {:induction false} MovedLocks(s: State, t: State, a: Action)
    requires Locks(s) && LockShape(s, t, a)
    ensures Locks(t)
  {
  }

  lemma {:induction false} StepKeepsLocks(s: State, a: Action)
    requires Locks(s) && Enabled(s, a)
    ensures Locks(Step(s, a))
  {
    StepMovesLocks(s, a);
    MovedLocks(s, Step(s, a), a);
  }

  /** How a step moves calls. */
  ghost predicate CallShape(s: State, t: State, a: Action) {
    var p := a.process;
    && p < |s.pcs| && |t.pcs| == |s.pcs| && (forall q :: 0 <= q < |s.pcs| && q != p ==> t.pcs[q] == s.pcs[q])
    && t.clock == s.clock + 1
    && (t.pcs[p].Idle? || t.pcs[p].call == if s.pcs[p].Idle? then s.clock else s.pcs[p].call)
    && (|| t.done == s.done
        || (!s.pcs[p].Idle? && t.pcs[p].Idle? && |t.done| == |s.done| + 1
            && t.done == s.done + [t.done[|s.done|]] && t.done[|s.done|].call == s.pcs[p].call))
    && (|| t.effects == s.effects
        || (!s.pcs[p].Idle? && |t.effects| == |s.effects| + 1
            && t.effects == s.effects + [t.effects[|s.effects|]]
            && t.effects[|s.effects|].call == s.pcs[p].call && t.effects[|s.effects|].at == s.clock))
  }

  lemma {:induction false} StepMovesCalls(s: State, a: Action)
    requires Enabled(s, a)
    ensures CallShape(s, Step(s, a), a)
  {
  }

  lemma {:induction false} MovedCalls(s: State, t: State, a: Action)
    requires Calls(s) && CallShape(s, t, a)
    ensures Calls(t)
  {
    MovedNames(s, t, a);
  }

  lemma {:induction false} MovedNames(s: State, t: State, a: Action)
    requires Calls(s) && CallShape(s, t, a)
    ensures forall p :: 0 <= p < |t.pcs| && !t.pcs[p].Idle? ==> t.pcs[p].call < t.clock
    ensures forall p, q :: 0 <= p < q < |t.pcs| && !t.pcs[p].Idle? && !t.pcs[q].Idle? ==> t.pcs[p].call != t.pcs[q].call
    ensures forall p, k :: 0 <= p < |t.pcs| && !t.pcs[p].Idle? && 0 <= k < |t.done| ==> t.done[k].call != t.pcs[p].call
  {
  }

  lemma {:induction false} StepKeepsCalls(s: State, a: Action)
    requires Calls(s) && Enabled(s, a)
    ensures Calls(Step(s, a))
  {
    StepMovesCalls(s, a);
    MovedCalls(s, Step(s, a), a);
  }

  lemma {:induction false} ReflectedLater(
    effects: seq<Effect>, durable: nat, call: nat, op: Op, answer: Answer, more: seq<Effect>, longer: nat)
    requires Reflected(effects, durable, call, op, answer) && durable <= longer
    requires |more| <= 1 && (more != [] ==> more[0].call != call)
    ensures Reflected(effects + more, longer, call, op, answer)
  {
    var g := effects + more;
    assert forall i :: 0 <= i < |effects| ==> g[i] == effects[i];
    match answer
    case StoreError =>
    case Wrote(_) =>
      var i :| Performed(effects, call, op, answer, i) && i < durable;
      assert Performed(g, call, op, answer, i);
    case _ =>
      var i :| Performed(effects, call, op, answer, i);
      assert Performed(g, call, op, answer, i);
  }

  lemma {:induction false} EffectsGrow(s: State, a: Action) returns (more: seq<Effect>)
    requires Enabled(s, a) && |s.marks| > 0
    requires forall k :: 0 <= k < |s.marks| ==> s.marks[k] <= |s.effects|
    ensures Step(s, a).effects == s.effects + more && |more| <= 1
    ensures more != [] ==> !s.pcs[a.process].Idle? && more[0].call == s.pcs[a.process].call && more[0].at == s.clock
    ensures |Step(s, a).marks| > 0 && s.marks[0] <= Step(s, a).marks[0]
  {
    more := Step(s, a).effects[|s.effects|..];
  }

  lemma {:induction false} StepKeepsAnswered(s: State, a: Action, base: set<Version>)
    requires |s.marks| > 0 && (forall k :: 0 <= k < |s.marks| ==> s.marks[k] <= |s.effects|)
    requires Processes(s, base) && Answered(s) && Calls(s) && Enabled(s, a)
    ensures |Step(s, a).marks| > 0 && Answered(Step(s, a))
  {
    var t := Step(s, a);
    var more := EffectsGrow(s, a);
    forall k | 0 <= k < |t.done| ensures DoneOk(t, t.done[k]) {
      if k < |s.done| {
        var d := s.done[k];
        assert DoneOk(s, d);
        ReflectedLater(s.effects, s.marks[0], d.call, d.op, d.answer, more, t.marks[0]);
      } else {
        assert ProcessOk(s, base, s.pcs[a.process]);
        assert t.effects == s.effects && t.marks == s.marks;
      }
    }
  }

  // --- Steps of the one writer on its private file ---

  /** While a process holds the lock exclusively, nobody else holds it at all. */
  lemma {:induction false} WriterIsAlone(s: State, p: nat)
    requires Locks(s) && p < |s.pcs| && HoldsLock(s.pcs[p]) && !s.pcs[p].op.Get?
    ensures forall q :: 0 <= q < |s.pcs| && q != p ==> !HoldsLock(s.pcs[q])
  {
    assert s.writer == Some(p);
  }

  /** A step of the writer that touches only private parts of the disk. */
  ghost predicate PrivateStep(s: State, t: State, p: nat) {
    && p < |s.pcs| && HoldsLock(s.pcs[p]) && !s.pcs[p].op.Get?
    && PrivateChange(s.disk, t.disk)
    && t.effects == s.effects && t.marks == s.marks && t.drawn == s.drawn && t.clock == s.clock + 1
    && |t.pcs| == |s.pcs| && forall q :: 0 <= q < |s.pcs| && q != p ==> t.pcs[q] == s.pcs[q]
  }

  lemma {:induction false} PrivateStepKeepsStore(s: State, t: State, p: nat, init: Stored, base: set<Version>)
    requires PrivateStep(s, t, p) && DiskOk(s) && Marks(s, init) && Chain(s, init, base) && Order(s)
    ensures DiskOk(t) && Marks(t, init) && Chain(t, init, base) && Order(t)
  {
    PrivateChangeIsInvisible(s.disk, t.disk, s.drawn);
  }

  lemma {:induction false} PrivateStepKeepsProcesses(s: State, t: State, p: nat, base: set<Version>)
    requires PrivateStep(s, t, p) && Locks(s) && |s.marks| > 0 && Processes(s, base)
    requires ProcessOk(t, base, t.pcs[p])
    ensures Processes(t, base)
  {
    WriterIsAlone(s, p);
    forall q | 0 <= q < |t.pcs| ensures ProcessOk(t, base, t.pcs[q]) {
      if q != p { assert ProcessOk(s, base, s.pcs[q]); }
    }
  }

  lemma {:induction false} PrivateStepKeepsInv(s: State, a: Action, init: Stored, base: set<Version>)
    requires Inv(s, init, base) && Enabled(s, a)
    requires PrivateStep(s, Step(s, a), a.process)
    requires ProcessOk(Step(s, a), base, Step(s, a).pcs[a.process])
    ensures Inv(Step(s, a), init, base)
  {
    var t := Step(s, a);
    PrivateStepKeepsStore(s, t, a.process, init, base);
    PrivateStepKeepsProcesses(s, t, a.process, base);
    StepKeepsLocks(s, a);
    StepKeepsCalls(s, a);
    StepKeepsAnswered(s, a, base);
  }

  lemma {:induction false} CreateTemporaryKeepsInv(s: State, a: Action, init: Stored, base: set<Version>)
    requires Inv(s, init, base) && Enabled(s, a) && a.CreateTemporary?
    ensures Inv(Step(s, a), init, base)
  {
    CreateTemporaryIsPrivate(s, a, base);
    if a.ok { PrivateStepKeepsInv(s, a, init, base); } else { QuietStepKeepsInv(s, a, init, base); }
  }

  lemma {:induction false} CreateTemporaryIsPrivate(s: State, a: Action, base: set<Version>)
    requires DiskOk(s) && |s.marks| > 0 && Processes(s, base) && Enabled(s, a) && a.CreateTemporary?
    ensures if a.ok then PrivateStep(s, Step(s, a), a.process) else Quiet(s, Step(s, a), a.process)
    ensures ProcessOk(Step(s, a), base, Step(s, a).pcs[a.process])
  {
    assert ProcessOk(s, base, s.pcs[a.process]);
    if a.ok {
      CandidatesAreOld(s.disk, s.drawn);
      PrivateChangeIsInvisible(s.disk, Step(s, a).disk, s.drawn);
    }
  }

  lemma {:induction false} CandidatesAreOld(d: Disk, drawn: set<Uuid>)
    requires Sound(d, drawn)
    ensures Some(d.nextFile) !in d.candidates && d.nextFile !in d.files
  {
    forall k | 0 <= k < |d.candidates| ensures d.candidates[k] != Some(d.nextFile) {
      if d.candidates[k].Some? { assert Complete(d, d.candidates[k].value, drawn); }
    }
  }

  lemma {:induction false} FillKeepsInv(s: State, a: Action, init: Stored, base: set<Version>)
    requires Inv(s, init, base) && Enabled(s, a) && a.Fill?
    ensures Inv(Step(s, a), init, base)
  {
    FillIsPrivate(s, a, base);
    PrivateStepKeepsInv(s, a, init, base);
  }

  lemma {:induction false} FillIsPrivate(s: State, a: Action, base: set<Version>)
    requires DiskOk(s) && |s.marks| > 0 && Processes(s, base) && Enabled(s, a) && a.Fill?
    ensures PrivateStep(s, Step(s, a), a.process) && ProcessOk(Step(s, a), base, Step(s, a).pcs[a.process])
  {
    assert ProcessOk(s, base, s.pcs[a.process]);
    PrivateChangeIsInvisible(s.disk, Step(s, a).disk, s.drawn);
  }

  lemma {:induction false} FlushKeepsInv(s: State, a: Action, init: Stored, base: set<Version>)
    requires Inv(s, init, base) && Enabled(s, a) && a.Flush?
    ensures Inv(Step(s, a), init, base)
  {
    FlushIsPrivate(s, a, base);
    PrivateStepKeepsInv(s, a, init, base);
  }

  lemma {:induction false} FlushIsPrivate(s: State, a: Action, base: set<Version>)
    requires DiskOk(s) && |s.marks| > 0 && Processes(s, base) && Enabled(s, a) && a.Flush?
    ensures PrivateStep(s, Step(s, a), a.process) && ProcessOk(Step(s, a), base, Step(s, a).pcs[a.process])
  {
    assert ProcessOk(s, base, s.pcs[a.process]);
    PrivateChangeIsInvisible(s.disk, Step(s, a).disk, s.drawn);
  }

  lemma {:induction false} CleanUpKeepsInv(s: State, a: Action, init: Stored, base: set<Version>)
    requires Inv(s, init, base) && Enabled(s, a) && a.CleanUp?
    ensures Inv(Step(s, a), init, base)
  {
    CleanUpIsPrivate(s, a, base);
    PrivateStepKeepsInv(s, a, init, base);
  }

  lemma {:induction false} CleanUpIsPrivate(s: State, a: Action, base: set<Version>)
    requires DiskOk(s) && |s.marks| > 0 && Processes(s, base) && Enabled(s, a) && a.CleanUp?
    ensures PrivateStep(s, Step(s, a), a.process) && ProcessOk(Step(s, a), base, Step(s, a).pcs[a.process])
  {
    assert ProcessOk(s, base, s.pcs[a.process]);
  }

  // --- The steps that take effect ---

  /** What was read under the lock is the abstract object, under a version drawn before. */
  lemma {:induction false} ReadsCurrent(d: Disk, drawn: set<Uuid>)
    requires Sound(d, drawn)
    ensures ReadTarget(d) == Ok(Current(d))
    ensures Current(d).Some? ==> Current(d).value.version in Texts(drawn)
  {
    SoundReads(d, drawn);
  }

  lemma {:induction false} EffectKeepsAtomic(
    init: Stored, base: set<Version>, effects: seq<Effect>, e: Effect)
    requires Atomic(init, base, effects)
    requires Contract(PostAt(init, effects, |effects|), e.op, e.answer, e.post, Used(base, effects, |effects|))
    ensures Atomic(init, base, effects + [e])
    ensures PostAt(init, effects + [e], |effects| + 1) == e.post
    ensures Used(base, effects + [e], |effects| + 1)
         == Used(base, effects, |effects|) + if e.post.Some? then {e.post.value.version} else {}
    ensures forall n :: 0 <= n <= |effects| ==> PostAt(init, effects + [e], n) == PostAt(init, effects, n)
  {
    var g := effects + [e];
    assert forall i :: 0 <= i < |effects| ==> g[i] == effects[i];
    forall n | 0 <= n <= |effects| ensures Used(base, g, n) == Used(base, effects, n) {
      assert forall i :: 0 <= i < n ==> g[i] == effects[i];
    }
    forall n | 0 <= n < |g| ensures AtomicAt(init, base, g, n) {
      if n < |effects| { assert AtomicAt(init, base, effects, n); }
    }
    UsedGrows(base, g, |effects|);
  }

  lemma {:induction false} UsedGrows(base: set<Version>, effects: seq<Effect>, n: nat)
    requires n < |effects|
    ensures Used(base, effects, n + 1)
         == Used(base, effects, n) + if effects[n].post.Some? then {effects[n].post.value.version} else {}
  {
    var u := Used(base, effects, n + 1);
    forall i | 0 <= i < n + 1 && effects[i].post.Some? ensures effects[i].post.value.version in u {}
    forall v | v in u && v !in base
      ensures v in Used(base, effects, n) || (effects[n].post.Some? && v == effects[n].post.value.version)
    {
      var i :| 0 <= i < n + 1 && effects[i].post.Some? && effects[i].post.value.version == v;
    }
  }

  lemma {:induction false} InspectKeepsInv(s: State, a: Action, init: Stored, base: set<Version>)
    requires Inv(s, init, base) && Enabled(s, a) && a.Inspect?
    ensures Inv(Step(s, a), init, base)
  {
    var t, p := Step(s, a), a.process;
    var op := s.pcs[p].op;
    assert ProcessOk(s, base, s.pcs[p]);
    ReadsCurrent(s.disk, s.drawn);
    if !a.ok {
      QuietStepKeepsInv(s, a, init, base);
    } else if Accepts(Current(s.disk), op) {
      NewTextIsUnused(s, base, a.revision, init);
      QuietStepKeepsInv(s, a, init, base);
    } else {
      RefusalKeepsInv(s, a, init, base);
    }
  }

  lemma {:induction false} NewTextIsUnused(s: State, base: set<Version>, revision: Uuid, init: Stored)
    requires Chain(s, init, base) && revision !in s.drawn
    ensures UuidText(revision) !in Used(base, s.effects, |s.effects|)
  {
    forall u | u in s.drawn ensures UuidText(u) != UuidText(revision) {
      if UuidText(u) == UuidText(revision) { UuidTextIsInjective(u, revision); }
    }
  }

  lemma {:induction false} RefusalKeepsInv(s: State, a: Action, init: Stored, base: set<Version>)
    requires Inv(s, init, base) && Enabled(s, a) && a.Inspect? && a.ok
    requires ReadTarget(s.disk) == Ok(Current(s.disk)) && !Accepts(Current(s.disk), s.pcs[a.process].op)
    requires Current(s.disk).Some? ==> Current(s.disk).value.version in Texts(s.drawn)
    ensures Inv(Step(s, a), init, base)
  {
    StepKeepsLocks(s, a);
    StepKeepsCalls(s, a);
    StepKeepsAnswered(s, a, base);
    RefusalKeepsStore(s, a, init, base);
    RefusalKeepsProcesses(s, a, base);
  }

  /** The effect of a refusal. */
  ghost function RefusalEffect(s: State, a: Action): Effect
    requires Enabled(s, a) && a.Inspect?
  {
    var pc, found := s.pcs[a.process], Current(s.disk);
    Effect(a.process, pc.call, pc.op, Refusal(found, pc.op), found, s.clock)
  }

  lemma {:induction false} RefusalShape(s: State, a: Action)
    requires Enabled(s, a) && a.Inspect? && a.ok
    requires ReadTarget(s.disk) == Ok(Current(s.disk)) && !Accepts(Current(s.disk), s.pcs[a.process].op)
    ensures var t, pc := Step(s, a), s.pcs[a.process];
            && t.effects == s.effects + [RefusalEffect(s, a)]
            && t.disk == s.disk && t.marks == s.marks && t.drawn == s.drawn
            && t.pcs == s.pcs[a.process := Finishing(pc.op, pc.call, Refusal(Current(s.disk), pc.op))]
  {
  }

  lemma {:induction false} RefusalKeepsStore(s: State, a: Action, init: Stored, base: set<Version>)
    requires DiskOk(s) && Marks(s, init) && Chain(s, init, base) && Order(s) && Calls(s)
    requires |s.marks| > 0 && Enabled(s, a) && a.Inspect? && a.ok && ProcessOk(s, base, s.pcs[a.process])
    requires ReadTarget(s.disk) == Ok(Current(s.disk)) && !Accepts(Current(s.disk), s.pcs[a.process].op)
    requires Current(s.disk).Some? ==> Current(s.disk).value.version in Texts(s.drawn)
    ensures var t := Step(s, a); DiskOk(t) && Marks(t, init) && Chain(t, init, base) && Order(t)
  {
    RefusalShape(s, a);
    RefusalIsAllowed(s, a, base);
    SameObjectEffect(s, Step(s, a), RefusalEffect(s, a), init, base);
  }

  lemma {:induction false} RefusalIsAllowed(s: State, a: Action, base: set<Version>)
    requires Enabled(s, a) && a.Inspect? && !Accepts(Current(s.disk), s.pcs[a.process].op)
    ensures var e := RefusalEffect(s, a);
            && e.post == Current(s.disk)
            && Contract(Current(s.disk), e.op, e.answer, e.post, Used(base, s.effects, |s.effects|))
  {
  }

  /** An effect that leaves the object as it is. */
  lemma {:induction false} SameObjectEffect(s: State, t: State, e: Effect, init: Stored, base: set<Version>)
    requires DiskOk(s) && Marks(s, init) && Chain(s, init, base)
    requires t.effects == s.effects + [e] && t.disk == s.disk && t.marks == s.marks && t.drawn == s.drawn
    requires e.post == Current(s.disk) && (e.post.Some? ==> e.post.value.version in Texts(s.drawn))
    requires Contract(Current(s.disk), e.op, e.answer, e.post, Used(base, s.effects, |s.effects|))
    ensures DiskOk(t) && Marks(t, init) && Chain(t, init, base)
  {
    EffectKeepsAtomic(init, base, s.effects, e);
    assert MarksFit(t.marks, Objects(t.disk), init, t.effects) by {
      assert forall n :: 0 <= n <= |s.effects| ==> PostAt(init, s.effects + [e], n) == PostAt(init, s.effects, n);
    }
  }

  lemma {:induction false} RefusalKeepsProcesses(s: State, a: Action, base: set<Version>)
    requires Locks(s) && Calls(s) && |s.marks| > 0 && Processes(s, base) && Enabled(s, a) && a.Inspect? && a.ok
    requires ReadTarget(s.disk) == Ok(Current(s.disk)) && !Accepts(Current(s.disk), s.pcs[a.process].op)
    ensures |Step(s, a).marks| > 0 && Processes(Step(s, a), base)
  {
    var t, p, e := Step(s, a), a.process, RefusalEffect(s, a);
    RefusalShape(s, a);
    forall q | 0 <= q < |t.pcs| ensures ProcessOk(t, base, t.pcs[q]) {
      assert ProcessOk(s, base, s.pcs[q]);
      if q != p {
        OtherAfterRefusal(s, t, p, q, e, base);
      } else {
        RefusalIsReflected(s, a, base);
      }
    }
  }

  lemma {:induction false} RefusalIsReflected(s: State, a: Action, base: set<Version>)
    requires |s.marks| > 0 && Enabled(s, a) && a.Inspect? && ProcessOk(s, base, s.pcs[a.process])
    requires !Accepts(Current(s.disk), s.pcs[a.process].op)
    ensures var e := RefusalEffect(s, a);
            Reflected(s.effects + [e], s.marks[0], e.call, e.op, e.answer)
  {
    var e := RefusalEffect(s, a);
    assert Performed(s.effects + [e], e.call, e.op, e.answer, |s.effects|);
  }

  /** A refusal takes effect without changing anything another process relies on. */
  lemma {:induction false} OtherAfterRefusal(s: State, t: State, p: nat, q: nat, e: Effect, base: set<Version>)
    requires p < |s.pcs| && q < |s.pcs| && p != q && |s.marks| > 0
    requires Locks(s) && HoldsLock(s.pcs[p])
    requires !s.pcs[q].Idle? ==> s.pcs[q].call != e.call
    requires t.effects == s.effects + [e] && t.disk == s.disk && t.marks == s.marks && t.drawn == s.drawn
    requires |t.pcs| == |s.pcs| && t.pcs[q] == s.pcs[q]
    requires ProcessOk(s, base, s.pcs[q])
    ensures ProcessOk(t, base, t.pcs[q])
  {
    var pc := s.pcs[q];
    if !s.pcs[p].op.Get? {
      WriterIsAlone(s, p);
    } else {
      assert p in s.readers;
      assert HoldsLock(pc) ==> pc.op.Get?;
    }
    if pc.Finishing? { ReflectedLater(s.effects, s.marks[0], pc.call, pc.op, pc.answer, [e], t.marks[0]); }
  }

  lemma {:induction false} SwapKeepsInv(s: State, a: Action, init: Stored, base: set<Version>)
    requires Inv(s, init, base) && Enabled(s, a) && a.Swap?
    ensures Inv(Step(s, a), init, base)
  {
    assert ProcessOk(s, base, s.pcs[a.process]);
    if !a.ok {
      QuietStepKeepsInv(s, a, init, base);
    } else {
      StepKeepsLocks(s, a);
      StepKeepsCalls(s, a);
      StepKeepsAnswered(s, a, base);
      SwapKeepsStore(s, a, init, base);
      SwapKeepsProcesses(s, a, base);
    }
  }

  lemma {:induction false} SwapKeepsStore(s: State, a: Action, init: Stored, base: set<Version>)
    requires DiskOk(s) && Marks(s, init) && Chain(s, init, base) && Order(s) && Calls(s)
    requires Enabled(s, a) && a.Swap? && a.ok && ProcessOk(s, base, s.pcs[a.process])
    ensures var t := Step(s, a); DiskOk(t) && Marks(t, init) && Chain(t, init, base) && Order(t)
  {
    var t := Step(s, a);
    var e := SwapEffect(s, a);
    SwapShape(s, a);
    SwapObjects(s, a, base);
    SwapIsAtomic(s, s.pcs[a.process], e, init, base);
    MarksExtend(s.marks, Objects(s.disk), init, s.effects, e);
    SwapKeepsOrder(s, a, base);
  }

  ghost function SwapEffect(s: State, a: Action): Effect
    requires Enabled(s, a) && a.Swap?
  {
    var pc := s.pcs[a.process];
    var version := UuidText(pc.revision);
    Effect(a.process, pc.call, pc.op, StoreReply.Wrote(version), Some(Object(Written(pc.op), version)), s.clock)
  }

  lemma {:induction false} SwapShape(s: State, a: Action)
    requires Enabled(s, a) && a.Swap? && a.ok
    ensures var t := Step(s, a);
            && t.effects == s.effects + [SwapEffect(s, a)]
            && t.marks == s.marks + [|s.effects| + 1]
            && t.disk == Rename(s.disk, s.pcs[a.process].name)
            && t.drawn == s.drawn
  {
  }

  lemma {:induction false} SwapObjects(s: State, a: Action, base: set<Version>)
    requires DiskOk(s) && |s.marks| > 0 && Enabled(s, a) && a.Swap? && a.ok && ProcessOk(s, base, s.pcs[a.process])
    ensures var t := Step(s, a);
            && DiskOk(t)
            && Current(t.disk) == SwapEffect(s, a).post
            && Objects(t.disk) == Objects(s.disk) + [SwapEffect(s, a).post]
  {
    SwapShape(s, a);
    RenamedObjects(s.disk, s.drawn, s.pcs[a.process]);
  }

  lemma {:induction false} RenamedObjects(d: Disk, drawn: set<Uuid>, pc: Pc)
    requires Sound(d, drawn) && pc.Publishing? && pc.stage.Flushed? && pc.revision in drawn
    requires Private(d, pc.op, pc.revision, pc.stage, pc.name, pc.file)
    ensures var e := Rename(d, pc.name);
            var published := Some(Object(Written(pc.op), UuidText(pc.revision)));
            Sound(e, drawn) && Current(e) == published && Objects(e) == Objects(d) + [published]
  {
    RenamedIsSound(d, drawn, pc.name, pc.revision, Written(pc.op));
    OneMoreObject(d, Rename(d, pc.name));
  }

  lemma {:induction false} OneMoreObject(d: Disk, e: Disk)
    requires e.files == d.files && e.candidates == d.candidates + [e.target]
    ensures Objects(e) == Objects(d) + [Current(e)]
  {
    assert |Objects(e)| == |Objects(d)| + 1;
    forall k | 0 <= k < |d.candidates| ensures Objects(e)[k] == Objects(d)[k] {
      assert e.candidates[k] == d.candidates[k];
    }
  }

  lemma {:induction false} SwapKeepsOrder(s: State, a: Action, base: set<Version>)
    requires Order(s) && |s.marks| > 0 && Enabled(s, a) && a.Swap? && a.ok && ProcessOk(s, base, s.pcs[a.process])
    ensures Order(Step(s, a))
  {
    SwapShape(s, a);
  }

  lemma {:induction false} SwapIsAtomic(s: State, pc: Pc, e: Effect, init: Stored, base: set<Version>)
    requires Chain(s, init, base) && pc.Publishing? && Ready(s, base, pc.op, pc.revision)
    requires e.op == pc.op && e.answer == StoreReply.Wrote(UuidText(pc.revision))
    requires e.post == Some(Object(Written(pc.op), UuidText(pc.revision)))
    ensures Atomic(init, base, s.effects + [e])
    ensures PostAt(init, s.effects + [e], |s.effects| + 1) == e.post
    ensures Used(base, s.effects + [e], |s.effects| + 1) <= Texts(s.drawn)
  {
    assert UuidText(pc.revision) in Texts(s.drawn);
    WriteIsAtomic(PostAt(init, s.effects, |s.effects|), Used(base, s.effects, |s.effects|), pc.op,
                  UuidText(pc.revision));
    EffectKeepsAtomic(init, base, s.effects, e);
  }

  lemma {:induction false} WriteIsAtomic(pre: Stored, used: set<Version>, op: Op, version: Version)
    requires Accepts(pre, op) && version !in used && |Payload(op)| <= U64_MAX
    ensures Contract(pre, op, StoreReply.Wrote(version), Some(Object(Written(op), version)), used)
  {
  }

  lemma {:induction false} MarksExtend(
    marks: seq<nat>, objects: seq<Stored>, init: Stored, effects: seq<Effect>, e: Effect)
    requires MarksFit(marks, objects, init, effects)
    ensures MarksFit(marks + [|effects| + 1], objects + [e.post], init, effects + [e])
  {
    assert forall n :: 0 <= n <= |effects| ==> PostAt(init, effects + [e], n) == PostAt(init, effects, n);
  }

  lemma {:induction false} SwapKeepsProcesses(s: State, a: Action, base: set<Version>)
    requires Locks(s) && Calls(s) && |s.marks| > 0 && Processes(s, base)
    requires Enabled(s, a) && a.Swap? && a.ok && !s.pcs[a.process].op.Get?
    ensures |Step(s, a).marks| > 0 && Processes(Step(s, a), base)
  {
    var t, p := Step(s, a), a.process;
    var e := t.effects[|s.effects|];
    assert t.effects == s.effects + [e];
    WriterIsAlone(s, p);
    forall q | 0 <= q < |t.pcs| ensures ProcessOk(t, base, t.pcs[q]) {
      if q != p {
        assert ProcessOk(s, base, s.pcs[q]);
      } else {
        assert Performed(t.effects, e.call, e.op, e.answer, |s.effects|);
      }
    }
  }

  lemma {:induction false} SyncParentKeepsInv(s: State, a: Action, init: Stored, base: set<Version>)
    requires Inv(s, init, base) && Enabled(s, a) && a.SyncParent?
    ensures Inv(Step(s, a), init, base)
  {
    assert ProcessOk(s, base, s.pcs[a.process]);
    if !a.ok {
      SyncFailureReflects(s, a, base);
      QuietStepKeepsInv(s, a, init, base);
    } else {
      StepKeepsLocks(s, a);
      StepKeepsCalls(s, a);
      StepKeepsAnswered(s, a, base);
      SyncKeepsStore(s, a, init, base);
      SyncKeepsProcesses(s, a, init, base);
    }
  }

  lemma {:induction false} SyncKeepsStore(s: State, a: Action, init: Stored, base: set<Version>)
    requires DiskOk(s) && Marks(s, init) && Chain(s, init, base) && Order(s)
    requires Enabled(s, a) && a.SyncParent? && a.ok
    ensures var t := Step(s, a); DiskOk(t) && Marks(t, init) && Chain(t, init, base) && Order(t)
  {
    SyncShape(s, a);
    SyncedStore(s, Step(s, a), init, base);
  }

  lemma {:induction false} SyncShape(s: State, a: Action)
    requires Enabled(s, a) && a.SyncParent? && a.ok
    ensures var t := Step(s, a);
            && t.disk == SyncDirectory(s.disk) && t.effects == s.effects && t.marks == [|s.effects|]
            && t.drawn == s.drawn && t.clock == s.clock + 1
  {
  }

  lemma {:induction false} SyncedStore(s: State, t: State, init: Stored, base: set<Version>)
    requires DiskOk(s) && Marks(s, init) && Chain(s, init, base) && Order(s)
    requires t.disk == SyncDirectory(s.disk) && t.effects == s.effects && t.marks == [|s.effects|]
    requires t.drawn == s.drawn && t.clock == s.clock + 1
    ensures DiskOk(t) && Marks(t, init) && Chain(t, init, base) && Order(t)
  {
    assert Objects(t.disk) == [Current(s.disk)];
  }

  /** A call whose directory sync failed reports an ambiguous error: its rename did succeed. */
  lemma {:induction false} SyncFailureReflects(s: State, a: Action, base: set<Version>)
    requires |s.marks| > 0 && Enabled(s, a) && a.SyncParent? && !a.ok && Order(s)
    requires ProcessOk(s, base, s.pcs[a.process])
    ensures ProcessOk(Step(s, a), base, Step(s, a).pcs[a.process])
  {
    var pc := s.pcs[a.process];
    var i :| Performed(s.effects, pc.call, pc.op, StoreReply.Wrote(UuidText(pc.revision)), i);
    forall j | 0 <= j < |s.effects| && s.effects[j].call == pc.call ensures j == i {
      OneEffectPerCall(s.effects, i, j);
    }
  }

  lemma {:induction false} OneEffectPerCall(effects: seq<Effect>, i: nat, j: nat)
    requires forall k, l :: 0 <= k < l < |effects| ==> effects[k].call != effects[l].call
    requires i < |effects| && j < |effects|
    ensures effects[i].call == effects[j].call <==> i == j
  {
    if i < j {
      assert effects[i].call != effects[j].call;
    } else if j < i {
      assert effects[j].call != effects[i].call;
    }
  }

  lemma {:induction false} SyncKeepsProcesses(s: State, a: Action, init: Stored, base: set<Version>)
    requires Locks(s) && Marks(s, init) && Processes(s, base)
    requires Enabled(s, a) && a.SyncParent? && a.ok && !s.pcs[a.process].op.Get?
    ensures |Step(s, a).marks| > 0 && Processes(Step(s, a), base)
  {
    var t, p := Step(s, a), a.process;
    assert ProcessOk(s, base, s.pcs[p]);
    assert s.marks[|s.marks| - 1] <= |s.effects|;
    WriterIsAlone(s, p);
    forall q | 0 <= q < |t.pcs| ensures ProcessOk(t, base, t.pcs[q]) {
      if q != p { assert ProcessOk(s, base, s.pcs[q]); }
    }
  }

  // --- Every step, every run ---

  lemma {:induction false} StepKeepsInv(s: State, a: Action, init: Stored, base: set<Version>)
    requires Inv(s, init, base) && Enabled(s, a)
    ensures Inv(Step(s, a), init, base)
  {
    match a
    case Inspect(_, _, _) => InspectKeepsInv(s, a, init, base);
    case CreateTemporary(_, _, _) => CreateTemporaryKeepsInv(s, a, init, base);
    case Fill(_, _, _) => FillKeepsInv(s, a, init, base);
    case Flush(_, _) => FlushKeepsInv(s, a, init, base);
    case Swap(_, _) => SwapKeepsInv(s, a, init, base);
    case SyncParent(_, _) => SyncParentKeepsInv(s, a, init, base);
    case CleanUp(_, _) => CleanUpKeepsInv(s, a, init, base);
    case _ => ControlKeepsInv(s, a, init, base);
  }

  /** Starting, giving up, locking, returning and dying touch neither disk nor effects. */
  lemma {:induction false} ControlKeepsInv(s: State, a: Action, init: Stored, base: set<Version>)
    requires Inv(s, init, base) && Enabled(s, a)
    requires a.Start? || a.GiveUp? || a.Acquire? || a.Release? || a.Die?
    ensures Inv(Step(s, a), init, base)
  {
    ControlIsQuiet(s, a, base);
    QuietStepKeepsInv(s, a, init, base);
  }

  lemma {:induction false} ControlIsQuiet(s: State, a: Action, base: set<Version>)
    requires |s.marks| > 0 && Calls(s) && Processes(s, base) && Enabled(s, a)
    requires a.Start? || a.GiveUp? || a.Acquire? || a.Release? || a.Die?
    ensures Quiet(s, Step(s, a), a.process)
    ensures ProcessOk(Step(s, a), base, Step(s, a).pcs[a.process])
  {
    assert ProcessOk(s, base, s.pcs[a.process]);
    if a.Start? { StartIsFresh(s, a, base); }
  }

  lemma {:induction false} StartIsFresh(s: State, a: Action, base: set<Version>)
    requires |s.marks| > 0 && Calls(s) && Enabled(s, a) && a.Start?
    ensures ProcessOk(Step(s, a), base, Step(s, a).pcs[a.process])
  {
  }

  lemma {:induction false} InitIsInv(s: State)
    requires Init(s)
    ensures Inv(s, Current(s.disk), Texts(s.drawn))
  {
  }

  lemma {:induction false} RunKeepsInv(states: seq<State>, actions: seq<Action>, n: nat)
    requires Run(states, actions) && n < |states|
    ensures Inv(states[n], Current(states[0].disk), Texts(states[0].drawn))
  {
    if n == 0 {
      InitIsInv(states[0]);
    } else {
      RunKeepsInv(states, actions, n - 1);
      StepKeepsInv(states[n - 1], actions[n - 1], Current(states[0].disk), Texts(states[0].drawn));
    }
  }

  // --- Main theorems ---

  /** Refinement. In every run, whatever fails: the effects are atomic operations that keep the store
      contract one after another; the object's file holds the result of the last; each call has
      at most one effect, inside the call; an answer other than a store error is the answer of
      that effect, so a refusal never wrote; a call that reports a store error has no effect but a
      write. Every effect is that of a call its process started, and the writes are exactly the
      renames that succeeded. */
  lemma {:induction false} FilesystemKeepsContract(states: seq<State>, actions: seq<Action>, n: nat)
    requires Run(states, actions) && n < |states|
    ensures var s, init := states[n], Current(states[0].disk);
            && Atomic(init, Texts(states[0].drawn), s.effects)
            && Current(s.disk) == PostAt(init, s.effects, |s.effects|)
            && ReadTarget(s.disk) == Ok(Current(s.disk))
            && (forall i, j :: 0 <= i < j < |s.effects| ==>
                                 s.effects[i].call != s.effects[j].call && s.effects[i].at < s.effects[j].at)
            && |s.marks| > 0
            && forall d <- s.done ::
                 && Reflected(s.effects, s.marks[0], d.call, d.op, d.answer)
                 && forall i :: 0 <= i < |s.effects| && s.effects[i].call == d.call ==>
                                  d.call <= s.effects[i].at <= d.returnedAt
    ensures forall e <- states[n].effects ::
              && Started(states, actions, n, e.process, e.call, e.op) && e.call <= e.at
              && (e.answer.Wrote? ==> RenamedFor(states, actions, n, e))
    ensures forall m :: 0 <= m < n && actions[m].Swap? && actions[m].ok ==>
              HasWriteOf(states[n].effects, states[m], actions[m])
  {
    EffectsOfRun(states, actions, n);
    RunKeepsInv(states, actions, n);
    var s := states[n];
    ReadsCurrent(s.disk, s.drawn);
    forall d | d in s.done
      ensures Reflected(s.effects, s.marks[0], d.call, d.op, d.answer)
      ensures forall i :: 0 <= i < |s.effects| && s.effects[i].call == d.call ==>
                d.call <= s.effects[i].at <= d.returnedAt
    {
      var k :| 0 <= k < |s.done| && s.done[k] == d;
      assert DoneOk(s, s.done[k]);
    }
  }

  lemma {:induction false} EffectsOfRun(states: seq<State>, actions: seq<Action>, n: nat)
    requires Run(states, actions) && n < |states|
    ensures forall e <- states[n].effects ::
              && Started(states, actions, n, e.process, e.call, e.op) && e.call <= e.at
              && (e.answer.Wrote? ==> RenamedFor(states, actions, n, e))
    ensures forall m :: 0 <= m < n && actions[m].Swap? && actions[m].ok ==>
              HasWriteOf(states[n].effects, states[m], actions[m])
  {
    RunKeepsInv(states, actions, n);
    RunIsTraced(states, actions);
    EffectsWereStarted(states, actions, n);
    WritesWereRenamed(states, actions, n);
    forall m | 0 <= m < n && actions[m].Swap? && actions[m].ok
      ensures HasWriteOf(states[n].effects, states[m], actions[m])
    {
      RenamesTakeEffect(states, actions, n, m);
    }
  }

  /** Durability. A crash at any moment of any run, whichever rename survives and whatever becomes of
      unsynced data, leaves the object exactly as some prefix of the effects left it, and that
      prefix contains every write whose call returned successfully. The store can start again from there. */
  lemma {:induction false} CrashKeepsAcknowledgedWrites(
    states: seq<State>, actions: seq<Action>, n: nat, k: nat, after: Disk) returns (kept: nat)
    requires Run(states, actions) && n < |states| && CrashLeaves(states[n].disk, k, after)
    ensures kept <= |states[n].effects|
    ensures Current(after) == PostAt(Current(states[0].disk), states[n].effects, kept)
    ensures forall d <- states[n].done :: d.answer.Wrote? ==>
              exists i :: Performed(states[n].effects, d.call, d.op, d.answer, i) && i < kept
    ensures Init(Restart(after, states[n].drawn, |states[n].pcs|)) && ReadTarget(after) == Ok(Current(after))
  {
    RunKeepsInv(states, actions, n);
    var s := states[n];
    CrashIsSound(s.disk, s.drawn, k, after);
    ReadsCurrent(after, s.drawn);
    kept := s.marks[k];
    assert s.marks[0] <= kept;
    forall d | d in s.done && d.answer.Wrote?
      ensures exists i :: Performed(s.effects, d.call, d.op, d.answer, i) && i < kept
    {
      var j :| 0 <= j < |s.done| && s.done[j] == d;
      assert DoneOk(s, s.done[j]);
      var i :| Performed(s.effects, d.call, d.op, d.answer, i) && i < s.marks[0];
    }
  }

  /** The store as it comes up again on `disk`. */
  ghost function Restart(disk: Disk, drawn: set<Uuid>, processes: nat): State {
    State(disk, drawn, {}, None, seq(processes, _ => Idle), [], [0], [], 0)
  }

  /** At most one process is ever between reading the object and releasing its exclusive lock. */
  lemma {:induction false} OneWriterAtATime(states: seq<State>, actions: seq<Action>, n: nat, p: nat, q: nat)
    requires Run(states, actions) && n < |states| && p < q < |states[n].pcs|
    requires HoldsLock(states[n].pcs[p]) && HoldsLock(states[n].pcs[q])
    ensures states[n].pcs[p].op.Get? && states[n].pcs[q].op.Get?
  {
    RunKeepsInv(states, actions, n);
    var s := states[n];
    if !s.pcs[p].op.Get? { WriterIsAlone(s, p); }
    if !s.pcs[q].op.Get? { WriterIsAlone(s, q); }
  }
}
