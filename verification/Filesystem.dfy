/** The filesystem store for one structure location, as any number of processes run it: every
    lock, system call and failure is a step of its own, and a process may die between any two.
    One lock file guards the object's file (`Naming`), so one location is a system by itself. */
module Filesystems {
  import opened Prelude
  import opened StoreContract
  import opened Bytes
  import opened Envelopes
  import opened Disks

  type Op = StoreOp<seq<byte>>
  type Answer = StoreReply<seq<byte>>
  type Stored = Option<Object<seq<byte>>>

  /** How far the temporary file of a publication got. */
  datatype Stage = Created | Filled | Flushed

  datatype Pc =
    | Idle
    | Wants(op: Op, call: nat)
    | Locked(op: Op, call: nat)
    | Checked(op: Op, call: nat, revision: Uuid)
    | Publishing(op: Op, call: nat, revision: Uuid, stage: Stage, name: Uuid, file: nat)
    | Renamed(op: Op, call: nat, revision: Uuid)
    | CleansUp(op: Op, call: nat, name: Uuid)
    | Finishing(op: Op, call: nat, answer: Answer)

  /** An atomic operation of the abstract store, performed at time `at`. */
  datatype Effect = Effect(process: nat, call: nat, op: Op, answer: Answer, post: Stored, at: nat)

  datatype Done = Done(process: nat, call: nat, op: Op, answer: Answer, returnedAt: nat)

  /** `effects`, `marks` and `done` only record what happened: `marks[k]` is the number of effects so far
      when crash candidate `k` was made. */
  datatype State = State(
    disk: Disk,
    drawn: set<Uuid>,
    readers: set<nat>,
    writer: Option<nat>,
    pcs: seq<Pc>,
    effects: seq<Effect>,
    marks: seq<nat>,
    done: seq<Done>,
    clock: nat)

  datatype Action =
    | Start(process: nat, op: Op)
    | GiveUp(process: nat)
    | Acquire(process: nat)
    | Inspect(process: nat, ok: bool, revision: Uuid)
    | CreateTemporary(process: nat, ok: bool, name: Uuid)
    | Fill(process: nat, ok: bool, written: nat)
    | Flush(process: nat, ok: bool)
    | Swap(process: nat, ok: bool)
    | SyncParent(process: nat, ok: bool)
    | CleanUp(process: nat, ok: bool)
    | Release(process: nat)
    | Die(process: nat)

  predicate HoldsLock(pc: Pc) {
    !pc.Idle? && !pc.Wants?
  }

  function Payload(op: Op): seq<byte> {
    if op.Get? then [] else op.bytes
  }

  ghost predicate Init(s: State) {
    && Sound(s.disk, s.drawn) && |s.disk.candidates| == 1
    && s.readers == {} && s.writer == None
    && (forall p :: 0 <= p < |s.pcs| ==> s.pcs[p] == Idle)
    && s.effects == [] && s.marks == [0] && s.done == []
  }

  ghost predicate Enabled(s: State, a: Action) {
    && a.process < |s.pcs|
    && var pc := s.pcs[a.process];
    match a
    case Start(_, op) => pc.Idle? && |Payload(op)| <= U64_MAX
    case GiveUp(_) => pc.Wants?
    case Acquire(_) => pc.Wants? && s.writer == None && (!pc.op.Get? ==> s.readers == {})
    case Inspect(_, _, revision) => pc.Locked? && revision !in s.drawn
    case CreateTemporary(_, ok, name) => pc.Checked? && (ok ==> name !in s.disk.temporaries)
    case Fill(_, _, written) =>
      pc.Publishing? && pc.stage.Created? && written <= |Envelope(pc.revision, Written(pc.op))|
    case Flush(_, _) => pc.Publishing? && pc.stage.Filled? && pc.file in s.disk.files
    case Swap(_, ok) => pc.Publishing? && pc.stage.Flushed? && pc.name in s.disk.temporaries
    case SyncParent(_, _) => pc.Renamed?
    case CleanUp(_, _) => pc.CleansUp?
    case Release(_) => pc.Finishing?
    case Die(_) => !pc.Idle?
  }

  /** What an operation writes; `Start` admits no longer payloads than 64 bits can count. */
  function Written(op: Op): Content {
    if |Payload(op)| <= U64_MAX then Payload(op) else []
  }

  ghost function Step(s: State, a: Action): State
    requires Enabled(s, a)
  {
    var p := a.process;
    var pc := s.pcs[p];
    var t := s.(clock := s.clock + 1);
    match a
    case Start(_, op) => Goto(t, p, Wants(op, s.clock))
    case GiveUp(_) => Return(t, p, StoreError)
    case Acquire(_) =>
      Goto(if pc.op.Get? then t.(readers := s.readers + {p}) else t.(writer := Some(p)), p, Locked(pc.op, pc.call))
    case Inspect(_, ok, revision) =>
      AfterInspect(t, p, if ok then ReadTarget(s.disk) else Err(InvalidObjectFormat), revision)
    case CreateTemporary(_, ok, name) =>
      if ok then
        Goto(t.(disk := CreateNew(s.disk, name)), p,
             Publishing(pc.op, pc.call, pc.revision, Created, name, s.disk.nextFile))
      else Goto(t, p, CleansUp(pc.op, pc.call, name))
    case Fill(_, ok, written) =>
      var encoded := Envelope(pc.revision, Written(pc.op));
      if ok then Goto(t.(disk := WriteFile(s.disk, pc.file, encoded)), p, pc.(stage := Filled))
      else Goto(t.(disk := WriteFile(s.disk, pc.file, encoded[..written])), p, CleansUp(pc.op, pc.call, pc.name))
    case Flush(_, ok) =>
      if ok then Goto(t.(disk := SyncFile(s.disk, pc.file)), p, pc.(stage := Flushed))
      else Goto(t, p, CleansUp(pc.op, pc.call, pc.name))
    case Swap(_, ok) =>
      if ok then AfterRename(t.(disk := Rename(s.disk, pc.name)), p)
      else Goto(t, p, CleansUp(pc.op, pc.call, pc.name))
    case SyncParent(_, ok) =>
      if ok then
        Goto(t.(disk := SyncDirectory(s.disk), marks := [|s.effects|]), p,
             Finishing(pc.op, pc.call, StoreReply.Wrote(UuidText(pc.revision))))
      else Goto(t, p, Finishing(pc.op, pc.call, StoreError))
    case CleanUp(_, ok) =>
      Goto(if ok then t.(disk := Remove(s.disk, pc.name)) else t, p, Finishing(pc.op, pc.call, StoreError))
    case Release(_) => Return(Unlock(t, p), p, pc.answer)
    case Die(_) => Goto(Unlock(t, p), p, Idle)
  }

  ghost function Goto(t: State, p: nat, pc: Pc): State
    requires p < |t.pcs|
  {
    t.(pcs := t.pcs[p := pc])
  }

  ghost function Unlock(t: State, p: nat): State {
    t.(readers := t.readers - {p}, writer := if t.writer == Some(p) then None else t.writer)
  }

  /** Process `p` returns `answer`. The time of this step is `t.clock - 1`. */
  ghost function Return(t: State, p: nat, answer: Answer): State
    requires p < |t.pcs| && !t.pcs[p].Idle? && t.clock > 0
  {
    Goto(t, p, Idle).(done := t.done + [Done(p, t.pcs[p].call, t.pcs[p].op, answer, t.clock - 1)])
  }

  ghost function Perform(t: State, p: nat, answer: Answer, post: Stored): State
    requires p < |t.pcs| && !t.pcs[p].Idle? && t.clock > 0
  {
    t.(effects := t.effects + [Effect(p, t.pcs[p].call, t.pcs[p].op, answer, post, t.clock - 1)])
  }

  /** The decision taken on what was read under the lock. */
  ghost function AfterInspect(t: State, p: nat, read: Result<Stored, DecodeError>, revision: Uuid): State
    requires p < |t.pcs| && !t.pcs[p].Idle? && t.clock > 0
  {
    var op, call := t.pcs[p].op, t.pcs[p].call;
    match read
    case Err(_) => Goto(t, p, Finishing(op, call, StoreError))
    case Ok(found) =>
      if Accepts(found, op) then Goto(t.(drawn := t.drawn + {revision}), p, Checked(op, call, revision))
      else
        var answer := Refusal(found, op);
        Goto(Perform(t, p, answer, found), p, Finishing(op, call, answer))
  }

  /** The answer of an operation that does not write. */
  function Refusal(found: Stored, op: Op): Answer {
    match op
    case Get => Found(found)
    case Create(_) => if found.Some? then AlreadyExists(found.value.version) else StoreError
    case Replace(_, _) => Conflict(VersionOf(found))
  }

  ghost function AfterRename(t: State, p: nat): State
    requires p < |t.pcs| && t.pcs[p].Publishing? && t.clock > 0
  {
    var pc := t.pcs[p];
    var version := UuidText(pc.revision);
    var u := Perform(t, p, StoreReply.Wrote(version), Some(Object(Written(pc.op), version)));
    Goto(u.(marks := t.marks + [|t.effects| + 1]), p, Renamed(pc.op, pc.call, pc.revision))
  }

  ghost predicate Run(states: seq<State>, actions: seq<Action>) {
    && |states| == |actions| + 1
    && Init(states[0])
    && forall i :: 0 <= i < |actions| ==> Enabled(states[i], actions[i]) && states[i + 1] == Step(states[i], actions[i])
  }
}
