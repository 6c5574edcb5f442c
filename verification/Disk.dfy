/** The directory of one structure object, as running processes see it and as a crash may
    leave it. */
module Disks {
  import opened Prelude
  import opened StoreContract
  import opened Bytes
  import opened Envelopes

  /** `synced` says that the data is on stable storage. */
  datatype File = File(data: seq<byte>, synced: bool)

  /** `target` is the file the object's name denotes; `temporaries` are the publications' own names.
      `candidates` lists what the object's name may denote after a crash: what it durably
      denoted, then the result of every rename since the directory was last synced. */
  datatype Disk = Disk(
    files: map<nat, File>,
    nextFile: nat,
    target: Option<nat>,
    temporaries: map<Uuid, nat>,
    candidates: seq<Option<nat>>)

  function CreateNew(d: Disk, name: Uuid): Disk {
    d.(files := d.files[d.nextFile := File([], false)],
    nextFile := d.nextFile + 1,
    temporaries := d.temporaries[name := d.nextFile])
  }

  function WriteFile(d: Disk, file: nat, data: seq<byte>): Disk {
    d.(files := d.files[file := File(data, false)])
  }

  function SyncFile(d: Disk, file: nat): Disk
    requires file in d.files
  {
    d.(files := d.files[file := d.files[file].(synced := true)])
  }

  function Rename(d: Disk, name: Uuid): Disk
    requires name in d.temporaries
  {
    var file := d.temporaries[name];
    d.(target := Some(file), temporaries := d.temporaries - {name}, candidates := d.candidates + [Some(file)])
  }

  function SyncDirectory(d: Disk): Disk {
    d.(candidates := [d.target])
  }

  function Remove(d: Disk, name: Uuid): Disk {
    d.(temporaries := d.temporaries - {name})
  }

  /** What reading the object's file gives; a name that denotes nothing is no error. */
  function ReadTarget(d: Disk): Result<Option<Object<seq<byte>>>, DecodeError> {
    ReadFile(d.files, d.target)
  }

  function ReadFile(files: map<nat, File>, file: Option<nat>): Result<Option<Object<seq<byte>>>, DecodeError> {
    if file.None? || file.value !in files then Ok(None)
    else
      match Decode(files[file.value].data)
      case Ok(stored) => Ok(Some(stored))
      case Err(e) => Err(e)
  }

  // --- Soundness of a disk ---

  /** A file that holds one complete, durable envelope whose revision was drawn. */
  ghost predicate Complete(d: Disk, file: nat, drawn: set<Uuid>) {
    && file in d.files && d.files[file].synced
    && exists u <- drawn, content: Content :: d.files[file].data == Envelope(u, content)
  }

  /** Whatever a crash may leave under the object's name is nothing or a complete object. */
  ghost predicate Sound(d: Disk, drawn: set<Uuid>) {
    && |d.candidates| > 0 && d.candidates[|d.candidates| - 1] == d.target
    && (forall k :: 0 <= k < |d.candidates| && d.candidates[k].Some? ==> Complete(d, d.candidates[k].value, drawn))
    && (forall f <- d.files :: f < d.nextFile)
  }

  /** The object in `file`. */
  ghost function ObjectIn(files: map<nat, File>, file: Option<nat>): Option<Object<seq<byte>>> {
    var r := ReadFile(files, file);
    if r.Ok? then r.value else None
  }

  ghost function Current(d: Disk): Option<Object<seq<byte>>> {
    ObjectIn(d.files, d.target)
  }

  lemma {:induction false} CompleteReads(d: Disk, file: nat, drawn: set<Uuid>)
    requires Complete(d, file, drawn)
    ensures ReadFile(d.files, Some(file)) == Ok(ObjectIn(d.files, Some(file))) && ObjectIn(d.files, Some(file)).Some?
    ensures exists u <- drawn :: ObjectIn(d.files, Some(file)).value.version == UuidText(u)
  {
    var u, content: Content :| u in drawn && d.files[file].data == Envelope(u, content);
    DecodeInvertsEnvelope(u, content);
  }

  lemma {:induction false} SoundGrows(d: Disk, drawn: set<Uuid>, more: set<Uuid>)
    requires Sound(d, drawn) && drawn <= more
    ensures Sound(d, more)
  {
    forall k | 0 <= k < |d.candidates| && d.candidates[k].Some? ensures Complete(d, d.candidates[k].value, more) {
      assert Complete(d, d.candidates[k].value, drawn);
    }
  }

  /** Reading a sound disk never fails, and gives an object whose version was drawn. */
  lemma {:induction false} SoundReads(d: Disk, drawn: set<Uuid>)
    requires Sound(d, drawn)
    ensures ReadTarget(d) == Ok(Current(d))
    ensures Current(d).Some? ==> exists u <- drawn :: Current(d).value.version == UuidText(u)
  {
    if d.target.Some? {
      assert Complete(d, d.candidates[|d.candidates| - 1].value, drawn);
      CompleteReads(d, d.target.value, drawn);
    }
  }

  /** `e` differs from `d` only in files and names no crash candidate depends on. */
  ghost predicate PrivateChange(d: Disk, e: Disk) {
    && e.target == d.target && e.candidates == d.candidates && e.nextFile >= d.nextFile
    && (forall f <- e.files :: f < e.nextFile)
    && forall f :: Some(f) in d.candidates && f in d.files ==> f in e.files && e.files[f] == d.files[f]
  }

  lemma {:induction false} PrivateChangeIsInvisible(d: Disk, e: Disk, drawn: set<Uuid>)
    requires Sound(d, drawn) && PrivateChange(d, e)
    ensures Sound(e, drawn) && Current(e) == Current(d)
    ensures forall k :: 0 <= k < |d.candidates| ==>
              ObjectIn(e.files, e.candidates[k]) == ObjectIn(d.files, d.candidates[k])
  {
    forall k | 0 <= k < |d.candidates|
      ensures d.candidates[k].Some? ==> Complete(e, d.candidates[k].value, drawn)
      ensures ObjectIn(e.files, e.candidates[k]) == ObjectIn(d.files, d.candidates[k])
    {
      if d.candidates[k].Some? {
        assert Complete(d, d.candidates[k].value, drawn);
        assert d.candidates[k] in d.candidates;
      }
    }
    assert ObjectIn(e.files, e.candidates[|d.candidates| - 1]) == ObjectIn(d.files, d.candidates[|d.candidates| - 1]);
  }

  /** The temporary file `name` of `d` is a complete, synced envelope. */
  ghost predicate Prepared(d: Disk, name: Uuid, revision: Uuid, content: Content) {
    && name in d.temporaries && d.temporaries[name] in d.files
    && d.files[d.temporaries[name]] == File(Envelope(revision, content), true)
  }

  /** Renaming a synced envelope over the object makes it current. */
  lemma {:induction false} RenamedIsSound(d: Disk, drawn: set<Uuid>, name: Uuid, revision: Uuid, content: Content)
    requires Sound(d, drawn) && revision in drawn && Prepared(d, name, revision, content)
    ensures Sound(Rename(d, name), drawn) && Current(Rename(d, name)) == Some(Object(content, UuidText(revision)))
  {
    var file := d.temporaries[name];
    assert Complete(d, file, drawn);
    DecodeInvertsEnvelope(revision, content);
    ListedIsSound(d, Rename(d, name), drawn, file);
  }

  lemma {:induction false} ListedIsSound(d: Disk, e: Disk, drawn: set<Uuid>, file: nat)
    requires Sound(d, drawn) && Complete(d, file, drawn)
    requires e.files == d.files && e.nextFile == d.nextFile
    requires e.target == Some(file) && e.candidates == d.candidates + [Some(file)]
    ensures Sound(e, drawn)
  {
    forall k | 0 <= k < |e.candidates| && e.candidates[k].Some? ensures Complete(e, e.candidates[k].value, drawn) {
      if k < |d.candidates| {
        assert e.candidates[k] == d.candidates[k];
        CompleteElsewhere(d, e, d.candidates[k].value, drawn);
      } else {
        CompleteElsewhere(d, e, file, drawn);
      }
    }
  }

  lemma {:induction false} CompleteElsewhere(d: Disk, e: Disk, file: nat, drawn: set<Uuid>)
    requires Complete(d, file, drawn) && e.files == d.files
    ensures Complete(e, file, drawn)
  {
  }

  /** `after` is a possible state of `d`'s directory after a crash at which candidate `k` survived: data
      that was not synced may be anything, and so may temporary names. */
  ghost predicate CrashLeaves(d: Disk, k: nat, after: Disk) {
    && k < |d.candidates|
    && after.target == d.candidates[k]
    && after.candidates == [d.candidates[k]]
    && (forall f <- d.files :: d.files[f].synced ==> f in after.files && after.files[f] == d.files[f])
    && (forall f <- after.files :: f < after.nextFile)
  }

  /** A crash leaves a sound disk, holding the complete object of the surviving candidate. */
  lemma {:induction false} CrashIsSound(d: Disk, drawn: set<Uuid>, k: nat, after: Disk)
    requires Sound(d, drawn) && CrashLeaves(d, k, after)
    ensures Sound(after, drawn)
    ensures Current(after) == ObjectIn(d.files, d.candidates[k])
  {
  }

  /** The sync of the temporary file cannot be left out: if it is renamed over the object without, a crash may leave
      anything in the object's file. */
  lemma {:induction false} UnsyncedMayBecomeAnything(d: Disk, name: Uuid, data: seq<byte>, garbage: seq<byte>)
    returns (after: Disk)
    requires forall f <- d.files :: f < d.nextFile
    ensures var written := WriteFile(CreateNew(d, name), d.nextFile, data);
            && CrashLeaves(Rename(written, name), |d.candidates|, after)
            && after.target.Some? && after.target.value in after.files
            && after.files[after.target.value].data == garbage
  {
    var e := Rename(WriteFile(CreateNew(d, name), d.nextFile, data), name);
    after := e.(files := e.files[d.nextFile := File(garbage, false)], candidates := [e.target]);
  }
}
