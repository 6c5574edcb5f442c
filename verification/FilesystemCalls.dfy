/** One call of the filesystem store from beginning to end, nobody else interfering: what each system call
    leaves on the disk, and the run of the step machine that does it. */
module FilesystemCalls {
  import opened Prelude
  import opened StoreContract
  import opened Bytes
  import opened Envelopes
  import opened Disks
  import opened Filesystems

  /** Which system calls fail; a failing write leaves `written` bytes. */
  datatype Faults = Faults(
    lock: bool, read: bool, open: bool, write: bool, written: nat, sync: bool, rename: bool, directory: bool,
    remove: bool)

  // --- The disk after each system call ---

  function Cleaned(d: Disk, name: Uuid, faults: Faults): Disk {
    if faults.remove then d else Remove(d, name)
  }

  function FromFlushed(d: Disk, name: Uuid, faults: Faults): (points: seq<Disk>)
    requires name in d.temporaries
    ensures points != []
  {
    if faults.rename then [Cleaned(d, name, faults)]
    else
      var e := Rename(d, name);
      [e, if faults.directory then e else SyncDirectory(e)]
  }

  function FromFilled(d: Disk, name: Uuid, faults: Faults): (points: seq<Disk>)
    requires name in d.temporaries && d.temporaries[name] in d.files
    ensures points != []
  {
    if faults.sync then [Cleaned(d, name, faults)]
    else
      var e := SyncFile(d, d.temporaries[name]);
      [e] + FromFlushed(e, name, faults)
  }

  /** What a failing write of `encoded` leaves. */
  function Partly(encoded: seq<byte>, faults: Faults): seq<byte> {
    if faults.written <= |encoded| then encoded[..faults.written] else encoded
  }

  function FromCreated(d: Disk, name: Uuid, encoded: seq<byte>, faults: Faults): (points: seq<Disk>)
    requires name in d.temporaries
    ensures points != []
  {
    if faults.write then
      var e := WriteFile(d, d.temporaries[name], Partly(encoded, faults));
      [e, Cleaned(e, name, faults)]
    else
      var e := WriteFile(d, d.temporaries[name], encoded);
      [e] + FromFilled(e, name, faults)
  }

  /** The disk before a publication and after each of its system calls; the last one is what it leaves. */
  function Points(d: Disk, name: Uuid, encoded: seq<byte>, faults: Faults): (points: seq<Disk>)
    ensures points != []
  {
    [d] + if faults.open || name in d.temporaries then [Cleaned(d, name, faults)]
          else
            var e := CreateNew(d, name);
            [e] + FromCreated(e, name, encoded, faults)
  }

  function Last(points: seq<Disk>): Disk
    requires points != []
  {
    points[|points| - 1]
  }

  predicate Succeeds(d: Disk, name: Uuid, faults: Faults) {
    name !in d.temporaries && !(faults.open || faults.write || faults.sync || faults.rename || faults.directory)
  }

  /** What a call leaves and answers. */
  function Called(d: Disk, op: Op, revision: Uuid, name: Uuid, faults: Faults): (Disk, Answer) {
    if faults.lock || faults.read then (d, StoreError)
    else
      match ReadTarget(d)
      case Err(_) => (d, StoreError)
      case Ok(found) =>
        if Accepts(found, op) then
          (Last(Points(d, name, Envelope(revision, Written(op)), faults)),
           if Succeeds(d, name, faults) then StoreReply.Wrote(UuidText(revision)) else StoreError)
        else (d, Refusal(found, op))
  }

  /** The disks a call goes through. */
  function PointsOf(d: Disk, op: Op, revision: Uuid, name: Uuid, faults: Faults): (points: seq<Disk>)
    ensures points != []
  {
    if !faults.lock && !faults.read && ReadTarget(d).Ok? && Accepts(ReadTarget(d).value, op)
    then Points(d, name, Envelope(revision, Written(op)), faults)
    else [d]
  }

  /** A call whose condition holds publishes. */
  lemma {:induction false} AcceptedCall(d: Disk, op: Op, revision: Uuid, name: Uuid, faults: Faults, found: Stored)
    requires !faults.lock && !faults.read && ReadTarget(d) == Ok(found) && Accepts(found, op)
    ensures var points := Points(d, name, Envelope(revision, Written(op)), faults);
            && PointsOf(d, op, revision, name, faults) == points
            && Called(d, op, revision, name, faults)
            == (Last(points), if Succeeds(d, name, faults) then StoreReply.Wrote(UuidText(revision)) else StoreError)
  {
  }

  /** No other temporary name came or went. */
  predicate OthersKept(before: Disk, after: Disk, name: Uuid) {
    after.temporaries - {name} == before.temporaries - {name}
  }

  /** The temporary name is gone, and no other came or went. */
  predicate CleanedUp(before: Disk, after: Disk, name: Uuid) {
    after.temporaries == before.temporaries - {name}
  }

  /** A publication leaves no temporary name behind, unless removing it after a failure failed; and it touches no
      other name. A name that was there before is removed too. */
  lemma {:induction false} LeavesNoTemporary(d: Disk, name: Uuid, encoded: seq<byte>, faults: Faults)
    ensures var after := Last(Points(d, name, encoded, faults));
            && OthersKept(d, after, name)
            && (Succeeds(d, name, faults) || !faults.remove ==> CleanedUp(d, after, name))
  {
    if name !in d.temporaries && !faults.open {
      var e := CreateNew(d, name);
      LeavesOnlyName(e, name, encoded, faults);
      assert e.temporaries - {name} == d.temporaries - {name};
    }
  }

  lemma {:induction false} LeavesOnlyName(e: Disk, name: Uuid, encoded: seq<byte>, faults: Faults)
    requires name in e.temporaries && e.temporaries[name] in e.files
    ensures var left := Last(FromCreated(e, name, encoded, faults)).temporaries;
            && left - {name} == e.temporaries - {name}
            && (!faults.remove || !(faults.write || faults.sync || faults.rename) ==> left == e.temporaries - {name})
  {
  }

  // --- Runs, step by step ---

  ghost predicate StepAt(states: seq<State>, actions: seq<Action>, i: nat)
    requires i < |actions| && i + 1 < |states|
  {
    Enabled(states[i], actions[i]) && states[i + 1] == Step(states[i], actions[i])
  }

  /** A run with its first and last state at hand. */
  ghost predicate Reached(states: seq<State>, actions: seq<Action>, start: State, s: State) {
    && |states| == |actions| + 1 && Init(start) && states[0] == start && states[|actions|] == s
    && forall i :: 0 <= i < |actions| ==> StepAt(states, actions, i)
  }

  lemma {:induction false} ReachedIsRun(states: seq<State>, actions: seq<Action>, start: State, s: State)
    requires Reached(states, actions, start, s)
    ensures Run(states, actions)
  {
    forall i | 0 <= i < |actions|
      ensures Enabled(states[i], actions[i]) && states[i + 1] == Step(states[i], actions[i])
    {
      assert StepAt(states, actions, i);
    }
  }

  lemma {:induction false} Extend(states: seq<State>, actions: seq<Action>, start: State, s: State, a: Action)
    returns (more: seq<State>, acts: seq<Action>, t: State)
    requires Reached(states, actions, start, s) && Enabled(s, a)
    ensures t == Step(s, a) && more == states + [t] && acts == actions + [a] && Reached(more, acts, start, t)
  {
    t := Step(s, a);
    more, acts := states + [t], actions + [a];
    forall i | 0 <= i < |acts| ensures StepAt(more, acts, i) {
      if i < |actions| { assert StepAt(states, actions, i); }
    }
  }

  ghost predicate Visits(states: seq<State>, from: nat, d: Disk) {
    exists i :: from <= i < |states| && states[i].disk == d
  }

  /** From its last state on, the run `states` was continued to `more` through exactly the disks `points`. */
  ghost predicate GoesThrough(states: seq<State>, more: seq<State>, points: seq<Disk>) {
    && states != [] && states <= more
    && (forall i :: |states| - 1 <= i < |more| ==> more[i].disk in points)
    && forall d <- points :: Visits(more, |states| - 1, d)
  }

  lemma {:induction false} OneStepGoes(states: seq<State>, t: State)
    requires states != []
    ensures GoesThrough(states, states + [t], [states[|states| - 1].disk, t.disk])
  {
    var more := states + [t];
    assert more[|states|] == t && more[|states| - 1] == states[|states| - 1];
  }

  lemma {:induction false} GoOn(
    states: seq<State>, middle: seq<State>, more: seq<State>, first: seq<Disk>, second: seq<Disk>, all: seq<Disk>)
    requires GoesThrough(states, middle, first) && GoesThrough(middle, more, second)
    requires forall d :: d in all <==> d in first || d in second
    ensures GoesThrough(states, more, all)
  {
    forall i | |states| - 1 <= i < |more| ensures more[i].disk in all {
      if i < |middle| { assert more[i] == middle[i]; }
    }
    forall d | d in all ensures Visits(more, |states| - 1, d) {
      if d in first {
        var i :| |states| - 1 <= i < |middle| && middle[i].disk == d;
        assert more[i].disk == d;
      } else {
        var i :| |middle| - 1 <= i < |more| && more[i].disk == d;
      }
    }
  }

  /** One step to disk `e`, then on from there. */
  lemma {:induction false} StepThenOn(states: seq<State>, u: State, more: seq<State>, e: Disk, rest: seq<Disk>)
    requires states != [] && u.disk == e && GoesThrough(states + [u], more, [e] + rest)
    ensures GoesThrough(states, more, [states[|states| - 1].disk] + ([e] + rest))
    ensures e == states[|states| - 1].disk ==> GoesThrough(states, more, [e] + rest)
  {
    var d := states[|states| - 1].disk;
    OneStepGoes(states, u);
    GoOn(states, states + [u], more, [d, e], [e] + rest, [d] + ([e] + rest));
    if e == d { GoOn(states, states + [u], more, [d, e], [e] + rest, [e] + rest); }
  }

  /** Process `p` has reached the end of its call; all else but the disk and the records is as it was. */
  ghost predicate Ended(s: State, t: State, p: nat, answer: Answer, disk: Disk) {
    && p < |s.pcs| && !s.pcs[p].Idle?
    && t.pcs == s.pcs[p := Finishing(s.pcs[p].op, s.pcs[p].call, answer)]
    && t.readers == s.readers && t.writer == s.writer && t.done == s.done && t.drawn == s.drawn
    && t.disk == disk
  }

  ghost predicate Owns(s: State, p: nat, stage: Stage, name: Uuid) {
    && p < |s.pcs| && s.pcs[p].Publishing? && s.pcs[p].stage == stage && s.pcs[p].name == name
    && name in s.disk.temporaries && s.disk.temporaries[name] == s.pcs[p].file && s.pcs[p].file in s.disk.files
  }

  /** Process `p` is further in the same call; all else but the disk and the records is as it was. */
  ghost predicate InCall(s: State, u: State, p: nat) {
    && p < |s.pcs| && !s.pcs[p].Idle? && |u.pcs| == |s.pcs| && u.pcs == s.pcs[p := u.pcs[p]]
    && !u.pcs[p].Idle? && u.pcs[p].op == s.pcs[p].op && u.pcs[p].call == s.pcs[p].call
    && u.readers == s.readers && u.writer == s.writer && u.done == s.done && u.drawn == s.drawn
  }

  lemma {:induction false} EndedFromBefore(s: State, u: State, t: State, p: nat, answer: Answer, disk: Disk)
    requires InCall(s, u, p) && Ended(u, t, p, answer, disk)
    ensures Ended(s, t, p, answer, disk)
  {
  }

  lemma {:induction false} TemporaryIsOwn(s: State, p: nat, name: Uuid)
    requires p < |s.pcs| && s.pcs[p].Checked? && name !in s.disk.temporaries
    ensures var u := Step(s, CreateTemporary(p, true, name));
            && InCall(s, u, p) && Owns(u, p, Created, name) && u.disk == CreateNew(s.disk, name)
            && u.pcs[p].revision == s.pcs[p].revision
  {
  }

  /** A step of a publication that fails leaves only the cleaning up to do. */
  lemma {:induction false} CleanUpRuns(
    states: seq<State>, actions: seq<Action>, start: State, s: State, u: State, a: Action, p: nat, name: Uuid,
    faults: Faults)
    returns (more: seq<State>, acts: seq<Action>, t: State)
    requires Reached(states, actions, start, s) && Enabled(s, a) && u == Step(s, a)
    requires p < |s.pcs| && !s.pcs[p].Idle? && u.pcs == s.pcs[p := CleansUp(s.pcs[p].op, s.pcs[p].call, name)]
    requires u.readers == s.readers && u.writer == s.writer && u.done == s.done && u.drawn == s.drawn
    ensures Reached(more, acts, start, t) && Ended(s, t, p, StoreError, Cleaned(u.disk, name, faults))
    ensures GoesThrough(states, more, [s.disk] + ([u.disk] + [Cleaned(u.disk, name, faults)]))
    ensures u.disk == s.disk ==> GoesThrough(states, more, [s.disk] + [Cleaned(u.disk, name, faults)])
  {
    var middle, v;
    middle, acts, v := Extend(states, actions, start, s, a);
    more, acts, t := Extend(middle, acts, start, u, CleanUp(p, !faults.remove));
    OneStepGoes(middle, t);
    assert [u.disk, t.disk] == [u.disk] + [t.disk];
    StepThenOn(states, u, more, u.disk, [t.disk]);
  }

  lemma {:induction false} FlushedRuns(
    states: seq<State>, actions: seq<Action>, start: State, s: State, p: nat, name: Uuid, faults: Faults)
    returns (more: seq<State>, acts: seq<Action>, t: State)
    requires Reached(states, actions, start, s) && Owns(s, p, Flushed, name)
    ensures Reached(more, acts, start, t)
    ensures var points := [s.disk] + FromFlushed(s.disk, name, faults);
            var answer := if faults.rename || faults.directory then StoreError
                          else StoreReply.Wrote(UuidText(s.pcs[p].revision));
            GoesThrough(states, more, points) && Ended(s, t, p, answer, Last(points))
  {
    if faults.rename {
      more, acts, t := RenameFails(states, actions, start, s, p, name, faults);
    } else {
      more, acts, t := RenameSucceeds(states, actions, start, s, p, name, faults);
    }
  }

  lemma {:induction false} RenameFails(
    states: seq<State>, actions: seq<Action>, start: State, s: State, p: nat, name: Uuid, faults: Faults)
    returns (more: seq<State>, acts: seq<Action>, t: State)
    requires Reached(states, actions, start, s) && Owns(s, p, Flushed, name) && (faults.rename)
    ensures Reached(more, acts, start, t)
    ensures var points := [s.disk] + FromFlushed(s.disk, name, faults);
            GoesThrough(states, more, points) && Ended(s, t, p, StoreError, Last(points))
  {
    var a := Swap(p, false);
    more, acts, t := CleanUpRuns(states, actions, start, s, Step(s, a), a, p, name, faults);
  }

  lemma {:induction false} RenameSucceeds(
    states: seq<State>, actions: seq<Action>, start: State, s: State, p: nat, name: Uuid, faults: Faults)
    returns (more: seq<State>, acts: seq<Action>, t: State)
    requires Reached(states, actions, start, s) && Owns(s, p, Flushed, name) && !(faults.rename)
    ensures Reached(more, acts, start, t)
    ensures var points := [s.disk] + FromFlushed(s.disk, name, faults);
            var answer := if faults.rename || faults.directory then StoreError
                          else StoreReply.Wrote(UuidText(s.pcs[p].revision));
            GoesThrough(states, more, points) && Ended(s, t, p, answer, Last(points))
  {
    var a := Swap(p, true);
    var middle, u;
    middle, acts, u := Extend(states, actions, start, s, a);
    more, acts, t := Extend(middle, acts, start, u, SyncParent(p, !faults.directory));
    OneStepGoes(middle, t);
    assert [u.disk, t.disk] == [u.disk] + [t.disk];
    StepThenOn(states, u, more, u.disk, [t.disk]);
    assert FromFlushed(s.disk, name, faults) == [u.disk] + [t.disk];
  }

  lemma {:induction false} FilledRuns(
    states: seq<State>, actions: seq<Action>, start: State, s: State, p: nat, name: Uuid, faults: Faults)
    returns (more: seq<State>, acts: seq<Action>, t: State)
    requires Reached(states, actions, start, s) && Owns(s, p, Filled, name)
    ensures Reached(more, acts, start, t)
    ensures var points := [s.disk] + FromFilled(s.disk, name, faults);
            var answer := if faults.sync || faults.rename || faults.directory then StoreError
                          else StoreReply.Wrote(UuidText(s.pcs[p].revision));
            GoesThrough(states, more, points) && Ended(s, t, p, answer, Last(points))
  {
    if faults.sync {
      more, acts, t := SyncFails(states, actions, start, s, p, name, faults);
    } else {
      more, acts, t := SyncSucceeds(states, actions, start, s, p, name, faults);
    }
  }

  lemma {:induction false} SyncFails(
    states: seq<State>, actions: seq<Action>, start: State, s: State, p: nat, name: Uuid, faults: Faults)
    returns (more: seq<State>, acts: seq<Action>, t: State)
    requires Reached(states, actions, start, s) && Owns(s, p, Filled, name) && (faults.sync)
    ensures Reached(more, acts, start, t)
    ensures var points := [s.disk] + FromFilled(s.disk, name, faults);
            GoesThrough(states, more, points) && Ended(s, t, p, StoreError, Last(points))
  {
    var a := Flush(p, false);
    more, acts, t := CleanUpRuns(states, actions, start, s, Step(s, a), a, p, name, faults);
  }

  lemma {:induction false} SyncSucceeds(
    states: seq<State>, actions: seq<Action>, start: State, s: State, p: nat, name: Uuid, faults: Faults)
    returns (more: seq<State>, acts: seq<Action>, t: State)
    requires Reached(states, actions, start, s) && Owns(s, p, Filled, name) && !(faults.sync)
    ensures Reached(more, acts, start, t)
    ensures var points := [s.disk] + FromFilled(s.disk, name, faults);
            var answer := if faults.sync || faults.rename || faults.directory then StoreError
                          else StoreReply.Wrote(UuidText(s.pcs[p].revision));
            GoesThrough(states, more, points) && Ended(s, t, p, answer, Last(points))
  {
    var middle, u;
    middle, acts, u := Extend(states, actions, start, s, Flush(p, true));
    more, acts, t := FlushedRuns(middle, acts, start, u, p, name, faults);
    StepThenOn(states, u, more, u.disk, FromFlushed(u.disk, name, faults));
  }

  lemma {:induction false} CreatedRuns(
    states: seq<State>, actions: seq<Action>, start: State, s: State, p: nat, name: Uuid, faults: Faults)
    returns (more: seq<State>, acts: seq<Action>, t: State)
    requires Reached(states, actions, start, s) && Owns(s, p, Created, name)
    ensures Reached(more, acts, start, t)
    ensures var points := [s.disk] + FromCreated(s.disk, name, Envelope(s.pcs[p].revision, Written(s.pcs[p].op)),
                                                 faults);
            var answer := if faults.write || faults.sync || faults.rename || faults.directory then StoreError
                          else StoreReply.Wrote(UuidText(s.pcs[p].revision));
            GoesThrough(states, more, points) && Ended(s, t, p, answer, Last(points))
  {
    if faults.write {
      more, acts, t := WriteFails(states, actions, start, s, p, name, faults);
    } else {
      more, acts, t := WriteSucceeds(states, actions, start, s, p, name, faults);
    }
  }

  lemma {:induction false} WriteFails(
    states: seq<State>, actions: seq<Action>, start: State, s: State, p: nat, name: Uuid, faults: Faults)
    returns (more: seq<State>, acts: seq<Action>, t: State)
    requires Reached(states, actions, start, s) && Owns(s, p, Created, name) && (faults.write)
    ensures Reached(more, acts, start, t)
    ensures var points := [s.disk] + FromCreated(s.disk, name, Envelope(s.pcs[p].revision, Written(s.pcs[p].op)),
                                                 faults);
            GoesThrough(states, more, points) && Ended(s, t, p, StoreError, Last(points))
  {
    var encoded := Envelope(s.pcs[p].revision, Written(s.pcs[p].op));
    var a := Fill(p, false, |Partly(encoded, faults)|);
    var u := Step(s, a);
    assert encoded[..|Partly(encoded, faults)|] == Partly(encoded, faults);
    more, acts, t := CleanUpRuns(states, actions, start, s, u, a, p, name, faults);
    assert FromCreated(s.disk, name, encoded, faults) == [u.disk] + [Cleaned(u.disk, name, faults)];
  }

  lemma {:induction false} WriteSucceeds(
    states: seq<State>, actions: seq<Action>, start: State, s: State, p: nat, name: Uuid, faults: Faults)
    returns (more: seq<State>, acts: seq<Action>, t: State)
    requires Reached(states, actions, start, s) && Owns(s, p, Created, name) && !(faults.write)
    ensures Reached(more, acts, start, t)
    ensures var points := [s.disk] + FromCreated(s.disk, name, Envelope(s.pcs[p].revision, Written(s.pcs[p].op)),
                                                 faults);
            var answer := if faults.write || faults.sync || faults.rename || faults.directory then StoreError
                          else StoreReply.Wrote(UuidText(s.pcs[p].revision));
            GoesThrough(states, more, points) && Ended(s, t, p, answer, Last(points))
  {
    var middle, u;
    middle, acts, u := Extend(states, actions, start, s, Fill(p, true, 0));
    more, acts, t := FilledRuns(middle, acts, start, u, p, name, faults);
    StepThenOn(states, u, more, u.disk, FromFilled(u.disk, name, faults));
  }

  /** A publication, from the decision to write to its answer. */
  lemma {:induction false} PublicationRuns(
    states: seq<State>, actions: seq<Action>, start: State, s: State, p: nat, name: Uuid, faults: Faults)
    returns (more: seq<State>, acts: seq<Action>, t: State)
    requires Reached(states, actions, start, s) && p < |s.pcs| && s.pcs[p].Checked?
    ensures Reached(more, acts, start, t)
    ensures var points := Points(s.disk, name, Envelope(s.pcs[p].revision, Written(s.pcs[p].op)), faults);
            var answer := if !Succeeds(s.disk, name, faults) then StoreError
                          else StoreReply.Wrote(UuidText(s.pcs[p].revision));
            GoesThrough(states, more, points) && Ended(s, t, p, answer, Last(points))
  {
    if faults.open || name in s.disk.temporaries {
      more, acts, t := OpenFails(states, actions, start, s, p, name, faults);
    } else {
      more, acts, t := OpenSucceeds(states, actions, start, s, p, name, faults);
    }
  }

  lemma {:induction false} OpenFails(
    states: seq<State>, actions: seq<Action>, start: State, s: State, p: nat, name: Uuid, faults: Faults)
    returns (more: seq<State>, acts: seq<Action>, t: State)
    requires Reached(states, actions, start, s) && p < |s.pcs| && s.pcs[p].Checked?
    requires (faults.open || name in s.disk.temporaries)
    ensures Reached(more, acts, start, t)
    ensures var points := Points(s.disk, name, Envelope(s.pcs[p].revision, Written(s.pcs[p].op)), faults);
            GoesThrough(states, more, points) && Ended(s, t, p, StoreError, Last(points))
  {
    var a := CreateTemporary(p, false, name);
    more, acts, t := CleanUpRuns(states, actions, start, s, Step(s, a), a, p, name, faults);
  }

  lemma {:induction false} OpenSucceeds(
    states: seq<State>, actions: seq<Action>, start: State, s: State, p: nat, name: Uuid, faults: Faults)
    returns (more: seq<State>, acts: seq<Action>, t: State)
    requires Reached(states, actions, start, s) && p < |s.pcs| && s.pcs[p].Checked?
    requires !(faults.open || name in s.disk.temporaries)
    ensures Reached(more, acts, start, t)
    ensures var points := Points(s.disk, name, Envelope(s.pcs[p].revision, Written(s.pcs[p].op)), faults);
            var answer := if !Succeeds(s.disk, name, faults) then StoreError
                          else StoreReply.Wrote(UuidText(s.pcs[p].revision));
            GoesThrough(states, more, points) && Ended(s, t, p, answer, Last(points))
  {
    var middle, u;
    middle, acts, u := Extend(states, actions, start, s, CreateTemporary(p, true, name));
    TemporaryIsOwn(s, p, name);
    more, acts, t := CreatedRuns(middle, acts, start, u, p, name, faults);
    var encoded := Envelope(s.pcs[p].revision, Written(s.pcs[p].op));
    StepThenOn(states, u, more, u.disk, FromCreated(u.disk, name, encoded, faults));
    var answer := if Succeeds(s.disk, name, faults) then StoreReply.Wrote(UuidText(s.pcs[p].revision)) else StoreError;
    EndedFromBefore(s, u, t, p, answer, t.disk);
  }

  // --- A whole call ---

  /** Nobody holds the lock and `p` has nothing to do. */
  ghost predicate AtRest(s: State, p: nat) {
    p < |s.pcs| && s.pcs[p].Idle? && s.writer == None && s.readers == {}
  }

  /** Process `p` has the lock for a call made in state `s`, and has yet to look at the object. */
  ghost predicate HasLock(s: State, u: State, p: nat, op: Op) {
    && p < |s.pcs| && u.pcs == s.pcs[p := Locked(op, s.clock)]
    && u.readers == (if op.Get? then {p} else {}) && u.writer == (if op.Get? then None else Some(p))
    && u.disk == s.disk && u.drawn == s.drawn && u.done == s.done
  }

  /** Process `p` is done with that call and about to release the lock. */
  ghost predicate HasAnswer(s: State, u: State, p: nat, op: Op, result: (Disk, Answer)) {
    && p < |s.pcs| && u.pcs == s.pcs[p := Finishing(op, s.clock, result.1)]
    && u.readers == (if op.Get? then {p} else {}) && u.writer == (if op.Get? then None else Some(p))
    && u.disk == result.0 && u.done == s.done
  }

  /** The call of `p` made in state `s` has returned; only the disk has changed. */
  ghost predicate Returned(s: State, t: State, p: nat, op: Op, result: (Disk, Answer)) {
    && AtRest(t, p) && t.pcs == s.pcs && t.disk == result.0
    && |t.done| == |s.done| + 1
    && t.done == s.done + [Done(p, s.clock, op, result.1, t.done[|s.done|].returnedAt)]
  }

  /** A step that leaves the disk alone adds nothing in front. */
  lemma {:induction false} StayThenOn(states: seq<State>, u: State, more: seq<State>, points: seq<Disk>)
    requires states != [] && u.disk == states[|states| - 1].disk && GoesThrough(states + [u], more, points)
    ensures GoesThrough(states, more, points)
  {
    assert more[|states|] == u && more[|states| - 1] == states[|states| - 1];
    forall d | d in points ensures Visits(more, |states| - 1, d) {
      var i :| |states| <= i < |more| && more[i].disk == d;
    }
  }

  /** Nor at the end. */
  lemma {:induction false} OnThenStay(states: seq<State>, more: seq<State>, t: State, points: seq<Disk>)
    requires GoesThrough(states, more, points) && t.disk == more[|more| - 1].disk
    ensures GoesThrough(states, more + [t], points)
  {
    forall d | d in points ensures Visits(more + [t], |states| - 1, d) {
      var i :| |states| - 1 <= i < |more| && more[i].disk == d;
      assert (more + [t])[i].disk == d;
    }
  }

  lemma {:induction false} LockRuns(states: seq<State>, actions: seq<Action>, start: State, s: State, p: nat, op: Op)
    returns (middle: seq<State>, acts: seq<Action>, u: State, v: State)
    requires Reached(states, actions, start, s) && AtRest(s, p) && |Payload(op)| <= U64_MAX
    ensures Reached(middle, acts, start, v) && middle == states + [u] + [v] && u.disk == s.disk && HasLock(s, v, p, op)
  {
    middle, acts, u := Extend(states, actions, start, s, Start(p, op));
    middle, acts, v := Extend(middle, acts, start, u, Acquire(p));
  }

  /** From the lock to the answer. */
  lemma {:induction false} AnswerRuns(
    states: seq<State>, actions: seq<Action>, start: State, s: State, u: State, p: nat, op: Op, revision: Uuid,
    name: Uuid,
    faults: Faults) returns (more: seq<State>, acts: seq<Action>, t: State)
    requires Reached(states, actions, start, u) && HasLock(s, u, p, op) && revision !in s.drawn && !faults.lock
    ensures Reached(more, acts, start, t) && GoesThrough(states, more, PointsOf(s.disk, op, revision, name, faults))
    ensures HasAnswer(s, t, p, op, Called(s.disk, op, revision, name, faults))
    ensures s.drawn <= t.drawn <= s.drawn + {revision}
  {
    if !faults.read && ReadTarget(s.disk).Ok? && Accepts(ReadTarget(s.disk).value, op) {
      more, acts, t := AcceptedRuns(states, actions, start, s, u, p, op, revision, name, faults);
    } else {
      more, acts, t := Extend(states, actions, start, u, Inspect(p, !faults.read, revision));
      OneStepGoes(states, t);
    }
  }

  /** Process `p` may write for a call made in state `s`. */
  ghost predicate MayWrite(s: State, v: State, p: nat, op: Op, revision: Uuid) {
    && p < |s.pcs| && v.pcs == s.pcs[p := Checked(op, s.clock, revision)]
    && v.readers == {} && v.writer == Some(p)
    && v.disk == s.disk && v.drawn == s.drawn + {revision} && v.done == s.done
  }

  lemma {:induction false} AcceptRuns(s: State, u: State, p: nat, op: Op, revision: Uuid)
    requires HasLock(s, u, p, op) && revision !in s.drawn && ReadTarget(s.disk).Ok?
    requires Accepts(ReadTarget(s.disk).value, op)
    ensures Enabled(u, Inspect(p, true, revision)) && MayWrite(s, Step(u, Inspect(p, true, revision)), p, op, revision)
  {
  }

  lemma {:induction false} AcceptedRuns(
    states: seq<State>, actions: seq<Action>, start: State, s: State, u: State, p: nat, op: Op, revision: Uuid,
    name: Uuid,
    faults: Faults) returns (more: seq<State>, acts: seq<Action>, t: State)
    requires Reached(states, actions, start, u) && HasLock(s, u, p, op) && revision !in s.drawn
    requires !faults.lock && !faults.read && ReadTarget(s.disk).Ok? && Accepts(ReadTarget(s.disk).value, op)
    ensures Reached(more, acts, start, t) && GoesThrough(states, more, PointsOf(s.disk, op, revision, name, faults))
    ensures HasAnswer(s, t, p, op, Called(s.disk, op, revision, name, faults))
    ensures s.drawn <= t.drawn <= s.drawn + {revision}
  {
    AcceptRuns(s, u, p, op, revision);
    var middle, v;
    middle, acts, v := Extend(states, actions, start, u, Inspect(p, true, revision));
    more, acts, t := PublicationRuns(middle, acts, start, v, p, name, faults);
    StayThenOn(states, v, more, Points(s.disk, name, Envelope(revision, Written(op)), faults));
    AcceptedCall(s.disk, op, revision, name, faults, ReadTarget(s.disk).value);
  }

  /** Whenever nobody holds the lock, a call that nobody interferes with is a run of the step machine: it leaves and
      answers what `Called` says, through the disks of `PointsOf`. */
  lemma {:induction false} CallRuns(
    states: seq<State>, actions: seq<Action>, start: State, s: State, p: nat, op: Op, revision: Uuid, name: Uuid,
    faults: Faults) returns (more: seq<State>, acts: seq<Action>, t: State)
    requires Reached(states, actions, start, s) && AtRest(s, p) && |Payload(op)| <= U64_MAX && revision !in s.drawn
    ensures Reached(more, acts, start, t)
    ensures Returned(s, t, p, op, Called(s.disk, op, revision, name, faults))
    ensures s.drawn <= t.drawn <= s.drawn + {revision}
    ensures GoesThrough(states, more, PointsOf(s.disk, op, revision, name, faults))
  {
    if faults.lock {
      more, acts, t := UnlockedCallRuns(states, actions, start, s, p, op, revision, name, faults);
    } else {
      more, acts, t := LockedCallRuns(states, actions, start, s, p, op, revision, name, faults);
    }
  }

  lemma {:induction false} UnlockedCallRuns(
    states: seq<State>, actions: seq<Action>, start: State, s: State, p: nat, op: Op, revision: Uuid, name: Uuid,
    faults: Faults) returns (more: seq<State>, acts: seq<Action>, t: State)
    requires Reached(states, actions, start, s) && AtRest(s, p) && |Payload(op)| <= U64_MAX && revision !in s.drawn
    requires faults.lock
    ensures Reached(more, acts, start, t)
    ensures Returned(s, t, p, op, Called(s.disk, op, revision, name, faults))
    ensures s.drawn <= t.drawn <= s.drawn + {revision}
    ensures GoesThrough(states, more, PointsOf(s.disk, op, revision, name, faults))
  {
    var middle, u;
    middle, acts, u := Extend(states, actions, start, s, Start(p, op));
    more, acts, t := Extend(middle, acts, start, u, GiveUp(p));
    assert t.pcs == s.pcs;
    OneStepGoes(states, u);
    assert GoesThrough(states, middle, [s.disk]);
    OnThenStay(states, middle, t, [s.disk]);
  }

  lemma {:induction false} LockedCallRuns(
    states: seq<State>, actions: seq<Action>, start: State, s: State, p: nat, op: Op, revision: Uuid, name: Uuid,
    faults: Faults) returns (more: seq<State>, acts: seq<Action>, t: State)
    requires Reached(states, actions, start, s) && AtRest(s, p) && |Payload(op)| <= U64_MAX && revision !in s.drawn
    requires !faults.lock
    ensures Reached(more, acts, start, t)
    ensures Returned(s, t, p, op, Called(s.disk, op, revision, name, faults))
    ensures s.drawn <= t.drawn <= s.drawn + {revision}
    ensures GoesThrough(states, more, PointsOf(s.disk, op, revision, name, faults))
  {
    var middle, u, v, w;
    middle, acts, u, v := LockRuns(states, actions, start, s, p, op);
    more, acts, w := AnswerRuns(middle, acts, start, s, v, p, op, revision, name, faults);
    ReleaseRuns(s, w, p, op, Called(s.disk, op, revision, name, faults));
    t := Step(w, Release(p));
    BeforeAndAfter(states, u, v, more, t, PointsOf(s.disk, op, revision, name, faults));
    more, acts, t := Extend(more, acts, start, w, Release(p));
  }

  lemma {:induction false} BeforeAndAfter(
    states: seq<State>, u: State, v: State, more: seq<State>, t: State, points: seq<Disk>)
    requires states != [] && u.disk == v.disk == states[|states| - 1].disk
    requires GoesThrough(states + [u] + [v], more, points)
    requires t.disk == more[|more| - 1].disk
    ensures GoesThrough(states, more + [t], points)
  {
    StayThenOn(states + [u], v, more, points);
    StayThenOn(states, u, more, points);
    OnThenStay(states, more, t, points);
  }

  lemma {:induction false} ReleaseRuns(s: State, w: State, p: nat, op: Op, result: (Disk, Answer))
    requires AtRest(s, p) && HasAnswer(s, w, p, op, result)
    ensures Enabled(w, Release(p)) && Returned(s, Step(w, Release(p)), p, op, result)
  {
    var t := Step(w, Release(p));
    assert t.pcs == s.pcs;
  }
}
