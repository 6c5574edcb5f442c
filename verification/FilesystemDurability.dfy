/** What a crash can lose: exactly the renames since the last successful sync of the directory, even
    when they were already read. */
module FilesystemDurability {
  import opened Prelude
  import opened StoreContract
  import opened Bytes
  import opened Disks
  import opened Envelopes
  import opened Filesystems
  import opened FilesystemCalls
  import opened FilesystemRefinement

  // --- Versions are never reused ---

  /** The object after `j` effects carries a version that no effect up to `i` left. */
  ghost predicate Renewed(init: Stored, base: set<Version>, effects: seq<Effect>, i: nat, j: nat)
    requires i <= |effects| && j <= |effects|
  {
    PostAt(init, effects, j).Some? && PostAt(init, effects, j).value.version !in Used(base, effects, i)
  }

  lemma {:induction false} PostIsUsed(init: Stored, base: set<Version>, effects: seq<Effect>, i: nat)
    requires i <= |effects| && (init.Some? ==> init.value.version in base)
    ensures PostAt(init, effects, i).Some? ==> PostAt(init, effects, i).value.version in Used(base, effects, i)
  {
    if i > 0 { UsedGrows(base, effects, i - 1); }
  }

  lemma {:induction false} UsedOnlyGrows(base: set<Version>, effects: seq<Effect>, i: nat, j: nat)
    requires i <= j <= |effects|
    ensures Used(base, effects, i) <= Used(base, effects, j)
  {
    if i < j {
      UsedOnlyGrows(base, effects, i, j - 1);
      UsedGrows(base, effects, j - 1);
    }
  }

  /** Between two effects the object stays as it is or gets a new version; it does get one if there is
      a write between them. */
  lemma {:induction false} SameOrRenewed(init: Stored, base: set<Version>, effects: seq<Effect>, i: nat, j: nat)
    requires Atomic(init, base, effects) && i <= j <= |effects|
    ensures PostAt(init, effects, j) == PostAt(init, effects, i) || Renewed(init, base, effects, i, j)
    ensures (exists w :: i <= w < j && effects[w].answer.Wrote?) ==> Renewed(init, base, effects, i, j)
  {
    if i < j {
      SameOrRenewed(init, base, effects, i, j - 1);
      UsedOnlyGrows(base, effects, i, j - 1);
      assert AtomicAt(init, base, effects, j - 1);
    }
  }

  /** Equal versions mean equal objects. */
  lemma {:induction false} VersionNamesObject(init: Stored, base: set<Version>, effects: seq<Effect>, i: nat, j: nat)
    requires Atomic(init, base, effects) && (init.Some? ==> init.value.version in base) && i <= j <= |effects|
    requires PostAt(init, effects, i).Some?
    requires VersionOf(PostAt(init, effects, j)) == VersionOf(PostAt(init, effects, i))
    ensures PostAt(init, effects, j) == PostAt(init, effects, i)
  {
    PostIsUsed(init, base, effects, i);
    SameOrRenewed(init, base, effects, i, j);
  }

  // --- Crash candidates and renames ---

  /** Every crash candidate but the first was made by a write. */
  ghost predicate MarksAreWrites(marks: seq<nat>, effects: seq<Effect>) {
    forall k :: 0 < k < |marks| ==> 0 < marks[k] <= |effects| && effects[marks[k] - 1].answer.Wrote?
  }

  /** A step makes a candidate by a rename, forgets all but the last by a sync, or leaves them alone. */
  ghost predicate CandidateShape(s: State, t: State, a: Action) {
    if a.Swap? && a.ok then
      && |t.disk.candidates| == |s.disk.candidates| + 1
      && t.marks == s.marks + [|s.effects| + 1]
      && |t.effects| == |s.effects| + 1 && s.effects <= t.effects && t.effects[|s.effects|].answer.Wrote?
    else if a.SyncParent? && a.ok then |t.disk.candidates| == 1 && |t.marks| == 1
    else |t.disk.candidates| == |s.disk.candidates| && t.marks == s.marks && s.effects <= t.effects
  }

  lemma {:induction false} StepMovesCandidates(s: State, a: Action)
    requires Enabled(s, a)
    ensures CandidateShape(s, Step(s, a), a)
  {
  }

  ghost predicate Synced(actions: seq<Action>, n: nat)
    requires n <= |actions|
  {
    forall m :: 0 <= m < n && actions[m].Swap? && actions[m].ok ==> SyncedAfter(actions, n, m)
  }

  ghost predicate SyncedAfter(actions: seq<Action>, n: nat, m: nat)
    requires n <= |actions|
  {
    exists l :: m < l < n && actions[l].SyncParent? && actions[l].ok
  }

  lemma {:induction false} RunMovesCandidates(states: seq<State>, actions: seq<Action>, n: nat)
    requires Run(states, actions) && n < |actions|
    ensures CandidateShape(states[n], states[n + 1], actions[n])
  {
    StepMovesCandidates(states[n], actions[n]);
  }

  lemma {:induction false} CandidatesOfRun(states: seq<State>, actions: seq<Action>, n: nat)
    requires |states| == |actions| + 1 && n < |states|
    requires |states[0].disk.candidates| == |states[0].marks| == 1
    requires forall i :: 0 <= i < |actions| ==> CandidateShape(states[i], states[i + 1], actions[i])
    ensures |states[n].disk.candidates| == |states[n].marks| >= 1
    ensures MarksAreWrites(states[n].marks, states[n].effects)
    ensures |states[n].disk.candidates| == 1 <==> Synced(actions, n)
  {
    if n > 0 {
      CandidatesOfRun(states, actions, n - 1);
      assert CandidateShape(states[n - 1], states[n - 1 + 1], actions[n - 1]);
      SyncedStep(actions, n - 1);
    }
  }

  lemma {:induction false} SyncedStep(actions: seq<Action>, n: nat)
    requires n < |actions|
    ensures Synced(actions, n + 1)
       <==> if actions[n].Swap? && actions[n].ok then false
            else if actions[n].SyncParent? && actions[n].ok then true
            else Synced(actions, n)
  {
    var a := actions[n];
    if a.Swap? && a.ok {
      assert !SyncedAfter(actions, n + 1, n);
    } else if a.SyncParent? && a.ok {
      forall m | 0 <= m < n + 1 && actions[m].Swap? && actions[m].ok ensures SyncedAfter(actions, n + 1, m) {
        assert m < n;
      }
    } else {
      forall m | 0 <= m < n ensures SyncedAfter(actions, n + 1, m) <==> SyncedAfter(actions, n, m) {}
    }
  }

  // --- Main theorems ---

  /** The crash after which the first candidate is left. */
  ghost function Oldest(d: Disk): Disk
    requires |d.candidates| > 0
  {
    d.(target := d.candidates[0], candidates := [d.candidates[0]], temporaries := map[])
  }

  /** In every reachable state: no crash changes the object exactly if every rename was followed by a
      successful sync of the directory; otherwise there is a crash that loses the last write. */
  lemma {:induction false} DurableIffSynced(states: seq<State>, actions: seq<Action>, n: nat)
    requires Run(states, actions) && n < |states|
    ensures Synced(actions, n) <==>
            forall k: nat, after: Disk :: CrashLeaves(states[n].disk, k, after) ==>
                                            Current(after) == Current(states[n].disk)
    ensures !Synced(actions, n) ==>
              && |states[n].disk.candidates| > 1 && |states[n].marks| > 1 && states[n].marks[0] <= |states[n].effects|
              && CrashLeaves(states[n].disk, 0, Oldest(states[n].disk))
              && Current(Oldest(states[n].disk))
              == PostAt(Current(states[0].disk), states[n].effects, states[n].marks[0])
              && Current(Oldest(states[n].disk)) != Current(states[n].disk)
  {
    CandidatesOfReached(states, actions, n);
    StoreOfReached(states, actions, n);
    var init, base := Current(states[0].disk), Texts(states[0].drawn);
    if Synced(actions, n) {
      OneCandidateIsSafe(states[n].disk, states[n].drawn);
    } else {
      OldestIsLost(states[n], init, base);
    }
  }

  /** Right after a successful sync of the directory a crash loses nothing. */
  lemma {:induction false} SyncedMeansDurable(states: seq<State>, actions: seq<Action>, n: nat, k: nat, after: Disk)
    requires Run(states, actions) && 0 < n < |states| && CrashLeaves(states[n].disk, k, after)
    requires actions[n - 1].SyncParent? && actions[n - 1].ok
    ensures Current(after) == Current(states[n].disk)
    ensures Current(after) == PostAt(Current(states[0].disk), states[n].effects, |states[n].effects|)
  {
    SyncedStep(actions, n - 1);
    DurableIffSynced(states, actions, n);
    StoreOfReached(states, actions, n);
  }

  lemma {:induction false} CandidatesOfReached(states: seq<State>, actions: seq<Action>, n: nat)
    requires Run(states, actions) && n < |states|
    ensures |states[n].disk.candidates| == |states[n].marks| >= 1
    ensures MarksAreWrites(states[n].marks, states[n].effects)
    ensures |states[n].disk.candidates| == 1 <==> Synced(actions, n)
  {
    forall i | 0 <= i < |actions| ensures CandidateShape(states[i], states[i + 1], actions[i]) {
      RunMovesCandidates(states, actions, i);
    }
    CandidatesOfRun(states, actions, n);
  }

  lemma {:induction false} StoreOfReached(states: seq<State>, actions: seq<Action>, n: nat)
    requires Run(states, actions) && n < |states|
    ensures var init, base := Current(states[0].disk), Texts(states[0].drawn);
            && DiskOk(states[n]) && Marks(states[n], init) && Chain(states[n], init, base)
            && (init.Some? ==> init.value.version in base)
  {
    RunKeepsInv(states, actions, n);
    ReadsCurrent(states[0].disk, states[0].drawn);
  }

  lemma {:induction false} OneCandidateIsSafe(d: Disk, drawn: set<Uuid>)
    requires Sound(d, drawn) && |d.candidates| == 1
    ensures forall k: nat, after: Disk :: CrashLeaves(d, k, after) ==> Current(after) == Current(d)
  {
    forall k: nat, after: Disk | CrashLeaves(d, k, after) ensures Current(after) == Current(d) {
      assert k == 0 && d.candidates[k] == d.target;
      CrashIsSound(d, drawn, k, after);
    }
  }

  lemma {:induction false} OldestIsLost(s: State, init: Stored, base: set<Version>)
    requires DiskOk(s) && Marks(s, init) && Chain(s, init, base) && MarksAreWrites(s.marks, s.effects) && |s.marks| > 1
    requires init.Some? ==> init.value.version in base
    ensures s.marks[0] <= |s.effects| && CrashLeaves(s.disk, 0, Oldest(s.disk))
    ensures Current(Oldest(s.disk)) == PostAt(init, s.effects, s.marks[0]) != Current(s.disk)
  {
    CrashIsSound(s.disk, s.drawn, 0, Oldest(s.disk));
    assert Objects(s.disk)[0] == PostAt(init, s.effects, s.marks[0]);
    OldestDiffers(s.marks, Objects(s.disk), init, base, s.effects);
  }

  lemma {:induction false} OldestDiffers(
    marks: seq<nat>, objects: seq<Stored>, init: Stored, base: set<Version>, effects: seq<Effect>)
    requires MarksFit(marks, objects, init, effects) && MarksAreWrites(marks, effects) && |marks| > 1
    requires Atomic(init, base, effects) && (init.Some? ==> init.value.version in base)
    ensures marks[0] <= |effects| && PostAt(init, effects, marks[0]) != PostAt(init, effects, |effects|)
  {
    assert marks[0] <= marks[1] - 1 < |effects| && effects[marks[1] - 1].answer.Wrote?;
    SameOrRenewed(init, base, effects, marks[0], |effects|);
    PostIsUsed(init, base, effects, marks[0]);
  }

  // --- A read that a crash takes back ---

  const NO_FAULTS := Faults(false, false, false, false, 0, false, false, false, false)
  const NO_SYNC := NO_FAULTS.(directory := true)

  /** A publication whose directory sync fails leaves the new object in place and the old one to
      a crash. */
  lemma {:induction false} UnsyncedPublication(d: Disk, drawn: set<Uuid>, name: Uuid, revision: Uuid, content: Content)
    requires Sound(d, drawn) && revision in drawn && name !in d.temporaries
    ensures var e := Last(Points(d, name, Envelope(revision, content), NO_SYNC));
            && |d.candidates| > 0 && |e.candidates| > 0
            && Sound(e, drawn) && Current(e) == Some(Object(content, UuidText(revision)))
            && CrashLeaves(e, 0, Oldest(e)) && Current(Oldest(e)) == ObjectIn(d.files, d.candidates[0])
  {
    var file, encoded := d.nextFile, Envelope(revision, content);
    var ready := SyncFile(WriteFile(CreateNew(d, name), file, encoded), file);
    CandidatesAreOld(d, drawn);
    PrivateChangeIsInvisible(d, ready, drawn);
    RenamedIsSound(ready, drawn, name, revision, content);
    RenamePoints(d, name, encoded);
    var e := Rename(ready, name);
    assert e.candidates[0] == d.candidates[0];
  }

  lemma {:induction false} RenamePoints(d: Disk, name: Uuid, encoded: seq<byte>)
    requires name !in d.temporaries
    ensures var file := d.nextFile;
            Last(Points(d, name, encoded, NO_SYNC))
            == Rename(SyncFile(WriteFile(CreateNew(d, name), file, encoded), file), name)
  {
    var file := d.nextFile;
    var filled := WriteFile(CreateNew(d, name), file, encoded);
    assert filled.temporaries[name] == file && file in filled.files;
  }

  /** Reads are not durable. From every state at rest, every write that may proceed can be carried out,
      answered with a store error, read by another process, and then lost by a crash that brings
      back what was there before. */
  lemma {:induction false} ReadMayBeLost(start: State, op: Op, revision: Uuid, name: Uuid, other: Uuid)
    returns (states: seq<State>, actions: seq<Action>, after: Disk)
    requires Init(start) && |start.pcs| >= 2 && |Payload(op)| <= U64_MAX && Accepts(Current(start.disk), op)
    requires revision !in start.drawn && other !in start.drawn + {revision} && name !in start.disk.temporaries
    ensures Run(states, actions) && states[0] == start
    ensures var s := states[|actions|];
            && |s.done| == 2 && s.done[0].op == op && s.done[0].answer == StoreError
            && s.done[1].op == Get && s.done[1].answer == Found(Some(Object(Written(op), UuidText(revision))))
            && CrashLeaves(s.disk, 0, after)
    ensures Current(after) == Current(start.disk) && Current(after) != Some(Object(Written(op), UuidText(revision)))
  {
    var s, t;
    states, actions, s, after := LostWriteRuns(start, op, revision, name);
    states, actions, t := CallRuns(states, actions, start, s, 1, Get, other, 0, NO_FAULTS);
    ReachedIsRun(states, actions, start, t);
  }

  /** The write, up to its store error, and the crash that loses it. */
  lemma {:induction false} LostWriteRuns(start: State, op: Op, revision: Uuid, name: Uuid)
    returns (states: seq<State>, actions: seq<Action>, s: State, after: Disk)
    requires Init(start) && |start.pcs| >= 2 && |Payload(op)| <= U64_MAX && Accepts(Current(start.disk), op)
    requires revision !in start.drawn && name !in start.disk.temporaries
    ensures Reached(states, actions, start, s) && AtRest(s, 1) && s.drawn <= start.drawn + {revision}
    ensures |s.done| == 1 && s.done[0].op == op && s.done[0].answer == StoreError
    ensures ReadTarget(s.disk) == Ok(Some(Object(Written(op), UuidText(revision))))
    ensures CrashLeaves(s.disk, 0, after) && Current(after) == Current(start.disk)
    ensures Current(after) != Some(Object(Written(op), UuidText(revision)))
  {
    UnsyncedCall(start.disk, start.drawn, op, revision, name);
    states, actions, s := FirstCallRuns(start, op, revision, name);
    after := Oldest(s.disk);
  }

  lemma {:induction false} FirstCallRuns(start: State, op: Op, revision: Uuid, name: Uuid)
    returns (states: seq<State>, actions: seq<Action>, s: State)
    requires Init(start) && |start.pcs| >= 2 && |Payload(op)| <= U64_MAX && revision !in start.drawn
    ensures Reached(states, actions, start, s) && AtRest(s, 1) && s.drawn <= start.drawn + {revision}
    ensures |s.done| == 1 && s.done[0].op == op
    ensures (s.disk, s.done[0].answer) == Called(start.disk, op, revision, name, NO_SYNC)
  {
    assert Reached([start], [], start, start);
    states, actions, s := CallRuns([start], [], start, start, 0, op, revision, name, NO_SYNC);
  }

  lemma {:induction false} UnsyncedCall(d: Disk, drawn: set<Uuid>, op: Op, revision: Uuid, name: Uuid)
    requires Sound(d, drawn) && |d.candidates| == 1 && Accepts(Current(d), op)
    requires revision !in drawn && name !in d.temporaries
    ensures var (e, answer) := Called(d, op, revision, name, NO_SYNC);
            && answer == StoreError && |e.candidates| > 0
            && ReadTarget(e) == Ok(Some(Object(Written(op), UuidText(revision))))
            && CrashLeaves(e, 0, Oldest(e)) && Current(Oldest(e)) == Current(d)
            && Current(d) != Some(Object(Written(op), UuidText(revision)))
  {
    ReadsCurrent(d, drawn);
    AcceptedCall(d, op, revision, name, NO_SYNC, Current(d));
    SoundGrows(d, drawn, drawn + {revision});
    UnsyncedPublication(d, drawn + {revision}, name, revision, Written(op));
    ReadsCurrent(Last(Points(d, name, Envelope(revision, Written(op)), NO_SYNC)), drawn + {revision});
    NewTextDiffers(drawn, revision);
  }

  lemma {:induction false} NewTextDiffers(drawn: set<Uuid>, revision: Uuid)
    requires revision !in drawn
    ensures UuidText(revision) !in Texts(drawn)
  {
    if UuidText(revision) in Texts(drawn) {
      var u :| u in drawn && UuidText(u) == UuidText(revision);
      UuidTextIsInjective(u, revision);
    }
  }
}
