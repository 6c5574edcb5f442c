/** The filesystem store's operations as the straight-line code they are, run by one process holding
    the lock. Every system call may fail, and the process may be cut off after any of them. */
module FilesystemStores {
  import opened Prelude
  import opened StoreContract
  import opened Bytes
  import opened Envelopes
  import opened Disks
  import opened FilesystemCalls

  /** Whatever a crash at this point may leave is an object a crash could have left at `before`, or
      `stored`. */
  ghost predicate OldOrNew(before: Disk, d: Disk, stored: Object<seq<byte>>) {
    forall k :: 0 <= k < |d.candidates| ==> LeftFrom(before, ObjectIn(d.files, d.candidates[k]), stored)
  }

  ghost predicate AllOldOrNew(before: Disk, points: seq<Disk>, drawn: set<Uuid>, stored: Object<seq<byte>>) {
    forall d <- points :: Sound(d, drawn) && OldOrNew(before, d, stored)
  }

  lemma {:induction false} AllOldOrNewTogether(
    before: Disk, first: seq<Disk>, second: seq<Disk>, last: Disk, drawn: set<Uuid>, stored: Object<seq<byte>>)
    requires AllOldOrNew(before, first, drawn, stored) && AllOldOrNew(before, second, drawn, stored)
    requires Sound(last, drawn) && OldOrNew(before, last, stored)
    ensures AllOldOrNew(before, first + second + [last], drawn, stored)
  {
  }

  ghost predicate LeftFrom(before: Disk, left: Option<Object<seq<byte>>>, stored: Object<seq<byte>>) {
    || left == Some(stored)
    || exists j :: 0 <= j < |before.candidates| && left == ObjectIn(before.files, before.candidates[j])
  }

  lemma {:induction false} PrivateChangeIsOld(before: Disk, d: Disk, drawn: set<Uuid>, stored: Object<seq<byte>>)
    requires Sound(before, drawn) && PrivateChange(before, d)
    ensures Sound(d, drawn) && Current(d) == Current(before) && OldOrNew(before, d, stored)
  {
    PrivateChangeIsInvisible(before, d, drawn);
  }

  /** Renaming a synced envelope over the object makes it current and adds it to what a crash may leave. */
  lemma {:induction false} RenamedIsNew(
    before: Disk, d: Disk, drawn: set<Uuid>, name: Uuid, revision: Uuid, content: Content)
    requires Sound(before, drawn) && PrivateChange(before, d) && revision in drawn
    requires Prepared(d, name, revision, content)
    ensures var e := Rename(d, name);
            var stored := Object(content, UuidText(revision));
            Sound(e, drawn) && Current(e) == Some(stored) && OldOrNew(before, e, stored)
  {
    var stored := Object(content, UuidText(revision));
    PrivateChangeIsOld(before, d, drawn, stored);
    RenamedIsSound(d, drawn, name, revision, content);
    RenamedIsOldOrNew(before, d, Rename(d, name), stored);
  }

  lemma {:induction false} RenamedIsOldOrNew(before: Disk, d: Disk, e: Disk, stored: Object<seq<byte>>)
    requires OldOrNew(before, d, stored) && Current(e) == Some(stored)
    requires e.files == d.files && e.candidates == d.candidates + [e.target]
    ensures OldOrNew(before, e, stored)
  {
    forall k | 0 <= k < |e.candidates| ensures LeftFrom(before, ObjectIn(e.files, e.candidates[k]), stored) {
      CandidateIsOldOrNew(before, d, e, stored, k);
    }
  }

  lemma {:induction false} CandidateIsOldOrNew(before: Disk, d: Disk, e: Disk, stored: Object<seq<byte>>, k: nat)
    requires OldOrNew(before, d, stored) && Current(e) == Some(stored)
    requires e.files == d.files && e.candidates == d.candidates + [e.target] && k < |e.candidates|
    ensures LeftFrom(before, ObjectIn(e.files, e.candidates[k]), stored)
  {
    if k < |d.candidates| {
      assert e.candidates[k] == d.candidates[k];
    } else {
      assert e.candidates[k] == e.target;
    }
  }

  lemma {:induction false} SyncedIsNew(before: Disk, e: Disk, drawn: set<Uuid>, stored: Object<seq<byte>>)
    requires Sound(e, drawn) && Current(e) == Some(stored)
    ensures Sound(SyncDirectory(e), drawn) && Current(SyncDirectory(e)) == Some(stored)
    ensures OldOrNew(before, SyncDirectory(e), stored)
  {
    SyncedIsSound(e, drawn);
    OneCandidateIsNew(before, SyncDirectory(e), stored);
  }

  lemma {:induction false} SyncedIsSound(e: Disk, drawn: set<Uuid>)
    requires Sound(e, drawn)
    ensures Sound(SyncDirectory(e), drawn) && Current(SyncDirectory(e)) == Current(e)
  {
    if e.target.Some? {
      assert Complete(e, e.candidates[|e.candidates| - 1].value, drawn);
      CompleteElsewhere(e, SyncDirectory(e), e.target.value, drawn);
    }
  }

  lemma {:induction false} OneCandidateIsNew(before: Disk, d: Disk, stored: Object<seq<byte>>)
    requires d.candidates == [d.target] && Current(d) == Some(stored)
    ensures OldOrNew(before, d, stored)
  {
  }

  lemma {:induction false} AllPrivateAreOld(
    before: Disk, points: seq<Disk>, drawn: set<Uuid>, stored: Object<seq<byte>>)
    requires Sound(before, drawn) && forall d <- points :: PrivateChange(before, d)
    ensures AllOldOrNew(before, points, drawn, stored)
  {
    forall d | d in points ensures Sound(d, drawn) && OldOrNew(before, d, stored) {
      PrivateChangeIsOld(before, d, drawn, stored);
    }
  }

  /** Removing a temporary name changes nothing that counts. */
  lemma {:induction false} CleaningIsInvisible(
    before: Disk, d: Disk, drawn: set<Uuid>, stored: Object<seq<byte>>, name: Uuid, faults: Faults)
    requires Sound(d, drawn) && OldOrNew(before, d, stored)
    ensures var e := Cleaned(d, name, faults);
            Sound(e, drawn) && OldOrNew(before, e, stored) && Current(e) == Current(d)
  {
    PrivateChangeIsInvisible(d, Cleaned(d, name, faults), drawn);
  }

  /** The disk after the rename and the sync, and the disk between them. */
  ghost function Exposed(d: Disk, name: Uuid, faults: Faults): (Disk, seq<Disk>)
    requires name in d.temporaries
  {
    if faults.rename then (d, [])
    else (if faults.directory then Rename(d, name) else SyncDirectory(Rename(d, name)), [Rename(d, name)])
  }

  /** After a successful rename the temporary name is gone, so removing it changes nothing. */
  lemma {:induction false} ExposedPoints(d: Disk, name: Uuid, faults: Faults, last: Disk)
    requires name in d.temporaries
    requires var (e, exposed) := Exposed(d, name, faults);
             last == if faults.rename || faults.directory then Cleaned(e, name, faults) else e
    ensures Exposed(d, name, faults).1 + [last] == FromFlushed(d, name, faults)
  {
    if !faults.rename {
      assert Cleaned(Rename(d, name), name, faults) == Rename(d, name);
    }
  }

  lemma {:induction false} PointsTogether(prepared: seq<Disk>, exposed: seq<Disk>, last: Disk, rest: seq<Disk>)
    requires exposed + [last] == rest
    ensures prepared + exposed + [last] == prepared + rest
  {
  }

  class FilesystemStore {
    var disk: Disk

    constructor (disk: Disk)
      ensures this.disk == disk
    {
      this.disk := disk;
    }

    /** Creates, fills and syncs the temporary file; the object and all older files are left alone. */
    method Prepare(encoded: seq<byte>, name: Uuid, faults: Faults, ghost revision: Uuid, ghost content: Content)
      returns (ok: bool, ghost points: seq<Disk>)
      requires (forall f <- disk.files :: f < disk.nextFile) && encoded == Envelope(revision, content)
      modifies this
      ensures PrivateChange(old(disk), disk) && forall d <- points :: PrivateChange(old(disk), d)
      ensures ok <==> name !in old(disk.temporaries) && !(faults.open || faults.write || faults.sync)
      ensures ok ==> Prepared(disk, name, revision, content)
      ensures Points(old(disk), name, encoded, faults)
           == points + if ok then FromFlushed(disk, name, faults) else [Cleaned(disk, name, faults)]
    {
      points := [disk];
      if faults.open || name in disk.temporaries { return false, points; }
      var file := disk.nextFile;
      disk := CreateNew(disk, name);
      points := points + [disk];
      if faults.write {
        disk := WriteFile(disk, file, Partly(encoded, faults));
        points := points + [disk];
        return false, points;
      }
      disk := WriteFile(disk, file, encoded);
      points := points + [disk];
      if faults.sync { return false, points; }
      disk := SyncFile(disk, file);
      points := points + [disk];
      ok := true;
    }

    /** Publishes `encoded` under the object's name. `points` lists the disk after every system call:
        the points at which a crash may strike. */
    method Publish(encoded: seq<byte>, name: Uuid, faults: Faults, ghost drawn: set<Uuid>, ghost revision: Uuid,
                   ghost content: Content)
      returns (ok: bool, ghost points: seq<Disk>)
      requires Sound(disk, drawn) && revision in drawn && encoded == Envelope(revision, content)
      modifies this
      ensures Sound(disk, drawn)
      ensures AllOldOrNew(old(disk), points + [disk], drawn, Object(content, UuidText(revision)))
      ensures ok ==> Current(disk) == Some(Object(content, UuidText(revision))) && disk.candidates == [disk.target]
      ensures !ok ==> || Current(disk) == old(Current(disk))
                      || (faults.directory && Current(disk) == Some(Object(content, UuidText(revision))))
      ensures ok <==> Succeeds(old(disk), name, faults)
      ensures points + [disk] == Points(old(disk), name, encoded, faults)
    {
      ghost var stored, before := Object(content, UuidText(revision)), disk;
      ok, points := Prepare(encoded, name, faults, revision, content);
      AllPrivateAreOld(before, points, drawn, stored);
      ghost var wasReady, ready := ok, disk;
      ghost var exposed: seq<Disk> := [];
      if ok {
        ok, exposed := Expose(name, faults, before, drawn, revision, content);
      } else {
        PrivateChangeIsOld(before, disk, drawn, stored);
      }
      if !ok {
        CleaningIsInvisible(before, disk, drawn, stored, name, faults);
        disk := Cleaned(disk, name, faults);
      }
      AllOldOrNewTogether(before, points, exposed, disk, drawn, stored);
      if wasReady { ExposedPoints(ready, name, faults, disk); }
      PointsTogether(points, exposed, disk, if wasReady then FromFlushed(ready, name, faults) else [disk]);
      points := points + exposed;
    }

    /** Renames the prepared file over the object and syncs the directory. */
    method Expose(name: Uuid, faults: Faults, ghost before: Disk, ghost drawn: set<Uuid>, ghost revision: Uuid,
                  ghost content: Content)
      returns (ok: bool, ghost points: seq<Disk>)
      requires Sound(before, drawn) && PrivateChange(before, disk)
      requires revision in drawn && Prepared(disk, name, revision, content)
      modifies this
      ensures Sound(disk, drawn) && OldOrNew(before, disk, Object(content, UuidText(revision)))
      ensures AllOldOrNew(before, points, drawn, Object(content, UuidText(revision)))
      ensures Current(disk) == if faults.rename then Current(before) else Some(Object(content, UuidText(revision)))
      ensures ok <==> !(faults.rename || faults.directory)
      ensures ok ==> disk.candidates == [disk.target]
      ensures (disk, points) == Exposed(old(disk), name, faults)
    {
      ghost var stored := Object(content, UuidText(revision));
      PrivateChangeIsOld(before, disk, drawn, stored);
      points := [];
      if faults.rename { return false, points; }
      RenamedIsNew(before, disk, drawn, name, revision, content);
      disk := Rename(disk, name);
      points := [disk];
      if faults.directory { return false, points; }
      SyncedIsNew(before, disk, drawn, stored);
      disk := SyncDirectory(disk);
      ok := true;
    }

    method Get(faults: Faults, ghost drawn: set<Uuid>) returns (reply: StoreReply<seq<byte>>)
      requires Sound(disk, drawn)
      ensures Contract(Current(disk), StoreOp.Get, reply, Current(disk), {})
      ensures reply.StoreError? <==> faults.lock || faults.read
      ensures (disk, reply) == Called(disk, StoreOp.Get, 0, 0, faults)
    {
      SoundReads(disk, drawn);
      if faults.lock || faults.read { return StoreError; }
      match ReadTarget(disk)
      case Ok(found) => reply := Found(found);
      case Err(_) => reply := StoreError;
    }

    /** Encodes and publishes `content`: what creating and replacing do once their condition holds. */
    method Put(content: Content, revision: Uuid, name: Uuid, faults: Faults, ghost drawn: set<Uuid>)
      returns (reply: StoreReply<seq<byte>>)
      requires Sound(disk, drawn)
      modifies this
      ensures Sound(disk, drawn + {revision})
      ensures disk == Last(Points(old(disk), name, Envelope(revision, content), faults))
      ensures OthersKept(old(disk), disk, name) && (reply.Wrote? || !faults.remove ==> CleanedUp(old(disk), disk, name))
      ensures reply == if Succeeds(old(disk), name, faults) then StoreReply.Wrote(UuidText(revision)) else StoreError
      ensures reply.Wrote? ==>
                Current(disk) == Some(Object(content, UuidText(revision))) && disk.candidates == [disk.target]
      ensures reply.StoreError? ==> || Current(disk) == old(Current(disk))
                                    || (faults.directory && Current(disk) == Some(Object(content, UuidText(revision))))
    {
      SoundGrows(disk, drawn, drawn + {revision});
      ghost var before := disk;
      var version, encoded := Encode(revision, content);
      var ok; ghost var points;
      ok, points := Publish(encoded, name, faults, drawn + {revision}, revision, content);
      reply := if ok then StoreReply.Wrote(version) else StoreError;
      LeavesNoTemporary(before, name, encoded, faults);
    }

    method Create(
      content: Content, revision: Uuid, name: Uuid, faults: Faults, ghost drawn: set<Uuid>, ghost used: set<Version>)
      returns (reply: StoreReply<seq<byte>>)
      requires Sound(disk, drawn) && UuidText(revision) !in used
      modifies this
      ensures Sound(disk, drawn + {revision})
      ensures Contract(old(Current(disk)), StoreOp.Create(content), reply, Current(disk), used)
      ensures (disk, reply) == Called(old(disk), StoreOp.Create(content), revision, name, faults)
      ensures reply.StoreError? && Current(disk) != old(Current(disk)) ==> faults.directory
      ensures reply.Wrote? ==> disk.candidates == [disk.target]
    {
      SoundReads(disk, drawn);
      SoundGrows(disk, drawn, drawn + {revision});
      if faults.lock || faults.read { return StoreError; }
      var read := ReadTarget(disk);
      if read.Err? { return StoreError; }
      if read.value.Some? { return AlreadyExists(read.value.value.version); }
      ghost var before := Current(disk);
      AcceptedCall(disk, StoreOp.Create(content), revision, name, faults, read.value);
      reply := Put(content, revision, name, faults, drawn);
      PutKeepsContract(before, StoreOp.Create(content), reply, Current(disk), used, UuidText(revision));
    }

    method Replace(
      expected: Version, content: Content, revision: Uuid, name: Uuid, faults: Faults,
      ghost drawn: set<Uuid>, ghost used: set<Version>)
      returns (reply: StoreReply<seq<byte>>)
      requires Sound(disk, drawn) && UuidText(revision) !in used
      modifies this
      ensures Sound(disk, drawn + {revision})
      ensures Contract(old(Current(disk)), StoreOp.Replace(expected, content), reply, Current(disk), used)
      ensures (disk, reply) == Called(old(disk), StoreOp.Replace(expected, content), revision, name, faults)
      ensures reply.StoreError? && Current(disk) != old(Current(disk)) ==> faults.directory
      ensures reply.Wrote? ==> disk.candidates == [disk.target]
    {
      SoundReads(disk, drawn);
      SoundGrows(disk, drawn, drawn + {revision});
      if faults.lock || faults.read { return StoreError; }
      var read := ReadTarget(disk);
      if read.Err? { return StoreError; }
      if VersionOf(read.value) != Some(expected) { return Conflict(VersionOf(read.value)); }
      ghost var before := Current(disk);
      AcceptedCall(disk, StoreOp.Replace(expected, content), revision, name, faults, read.value);
      reply := Put(content, revision, name, faults, drawn);
      PutKeepsContract(before, StoreOp.Replace(expected, content), reply, Current(disk), used, UuidText(revision));
    }
  }

  /** Once its condition holds, an operation may answer with the version it wrote, or with an error whether
      or not it wrote. */
  lemma {:induction false} PutKeepsContract(
    before: Option<Object<seq<byte>>>, op: StoreOp<seq<byte>>, reply: StoreReply<seq<byte>>,
    after: Option<Object<seq<byte>>>, used: set<Version>, version: Version)
    requires Accepts(before, op) && !op.Get? && version !in used
    requires reply == StoreReply.Wrote(version) || reply.StoreError?
    requires after == Some(Object(op.bytes, version)) || (reply.StoreError? && after == before)
    ensures Contract(before, op, reply, after, used)
  {
  }

  /** With the object's name durable beforehand, a crash at any point of a publication leaves exactly the
      complete old object or the complete new one. */
  lemma {:induction false} CrashLeavesOldOrNew(
    before: Disk, d: Disk, stored: Object<seq<byte>>, drawn: set<Uuid>, k: nat, after: Disk)
    requires Sound(before, drawn) && before.candidates == [before.target]
    requires Sound(d, drawn) && OldOrNew(before, d, stored) && CrashLeaves(d, k, after)
    ensures ReadTarget(after) == Ok(Current(before)) || ReadTarget(after) == Ok(Some(stored))
    ensures Sound(after, drawn)
  {
    assert LeftFrom(before, ObjectIn(d.files, d.candidates[k]), stored);
    CrashIsSound(d, drawn, k, after);
    SoundReads(after, drawn);
  }
}
