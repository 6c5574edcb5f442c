/** The in-process reference store: a map of objects and a counter that stamps versions. */
module MemoryStores {
  import opened Prelude
  import opened StoreContract

  type Location = string

  // --- Versions: the counter in decimal ---

  function Decimal(n: nat): string {
    if n < 10 then [Digit(n)] else Decimal(n / 10) + [Digit(n % 10)]
  }

  function Digit(d: nat): char
    requires d < 10
  {
    ['0', '1', '2', '3', '4', '5', '6', '7', '8', '9'][d]
  }

  ghost function Parse(s: string): int {
    if s == [] then 0 else Parse(s[..|s| - 1]) * 10 + (s[|s| - 1] as int - '0' as int)
  }

  lemma {:induction false} ParseInvertsDecimal(n: nat)
    ensures Parse(Decimal(n)) == n
  {
    var s := Decimal(n);
    if n < 10 {
      assert s[..0] == [];
    } else {
      ParseInvertsDecimal(n / 10);
      assert s[..|s| - 1] == Decimal(n / 10);
    }
  }

  // --- The state and what each operation does to it ---

  datatype Memory<+B> = Memory(objects: map<Location, Object<B>>, nextVersion: nat)

  function At<B>(m: Memory<B>, location: Location): Option<Object<B>> {
    if location in m.objects then Some(m.objects[location]) else None
  }

  /** `op` on `location`, performed under the store's mutex. */
  function Perform<B>(m: Memory<B>, location: Location, op: StoreOp<B>): (Memory<B>, StoreReply<B>) {
    var pre := At(m, location);
    match op
    case Get => (m, Found(pre))
    case Create(bytes) =>
      if pre.Some? then (m, AlreadyExists(pre.value.version))
      else Stamp(m, location, bytes)
    case Replace(expected, bytes) =>
      if VersionOf(pre) == Some(expected) then Stamp(m, location, bytes)
      else (m, Conflict(VersionOf(pre)))
  }

  function Stamp<B>(m: Memory<B>, location: Location, bytes: B): (Memory<B>, StoreReply<B>) {
    var version := Decimal(m.nextVersion + 1);
    (Memory(m.objects[location := Object(bytes, version)], m.nextVersion + 1), Wrote(version))
  }

  /** Every version the store ever gave out. */
  ghost function Issued<B>(m: Memory<B>): set<Version> {
    set k | 1 <= k <= m.nextVersion :: Decimal(k)
  }

  ghost predicate Stamped<B>(m: Memory<B>) {
    forall location <- m.objects :: m.objects[location].version in Issued(m)
  }

  lemma {:induction false} NextVersionIsNew<B>(m: Memory<B>)
    ensures Decimal(m.nextVersion + 1) !in Issued(m)
  {
    ParseInvertsDecimal(m.nextVersion + 1);
    forall k | 1 <= k <= m.nextVersion ensures Decimal(k) != Decimal(m.nextVersion + 1) {
      ParseInvertsDecimal(k);
    }
  }

  /** The memory store keeps the contract, at every location and for every operation; it
      touches no other location, and stamps stay unique. */
  lemma {:induction false} MemoryKeepsContract<B>(m: Memory<B>, location: Location, op: StoreOp<B>)
    requires Stamped(m)
    ensures var (after, reply) := Perform(m, location, op);
            && Contract(At(m, location), op, reply, At(after, location), Issued(m))
            && !reply.StoreError?
            && Stamped(after)
            && Issued(m) <= Issued(after)
            && (VersionOf(At(after, location)).Some? ==> VersionOf(At(after, location)).value in Issued(after))
            && forall other :: other != location ==> At(after, other) == At(m, other)
  {
    NextVersionIsNew(m);
    var after := Perform(m, location, op).0;
    forall v | v in Issued(m) ensures v in Issued(after) {
      var k :| 1 <= k <= m.nextVersion && Decimal(k) == v;
      assert 1 <= k <= after.nextVersion;
    }
  }

  // --- Writes of other clients ---

  /** Other clients replace the object with each of `writes` in turn, each from a fresh read. */
  function OthersWrite<B>(m: Memory<B>, location: Location, writes: seq<B>): Memory<B> {
    if writes == [] || location !in m.objects then m
    else
      var before := OthersWrite(m, location, writes[..|writes| - 1]);
      if location in before.objects
      then Perform(before, location, Replace(before.objects[location].version, writes[|writes| - 1])).0
      else before
  }

  lemma {:induction false} OthersWriteLast<B>(m: Memory<B>, location: Location, writes: seq<B>)
    requires Stamped(m) && location in m.objects
    ensures var after := OthersWrite(m, location, writes);
            && Stamped(after) && Issued(m) <= Issued(after)
            && location in after.objects
            && after.nextVersion == m.nextVersion + |writes|
            && (if writes == [] then after == m
                else && after.objects[location].bytes == writes[|writes| - 1]
                     && after.objects[location].version !in Issued(m))
  {
    if writes != [] {
      var n := |writes| - 1;
      OthersWriteLast(m, location, writes[..n]);
      var before := OthersWrite(m, location, writes[..n]);
      var op := Replace(before.objects[location].version, writes[n]);
      NextVersionIsNew(before);
      MemoryKeepsContract(before, location, op);
    }
  }

  /** The store object, shared by all its users. The source's mutex makes each method one step. */
  class MemoryStore<B> {
    var objects: map<Location, Object<B>>
    var nextVersion: nat

    ghost function State(): Memory<B>
      reads this
    {
      Memory(objects, nextVersion)
    }

    ghost predicate Valid()
      reads this
    {
      Stamped(State())
    }

    constructor ()
      ensures Valid() && State() == Memory(map[], 0)
    {
      objects := map[];
      nextVersion := 0;
    }

    /** The next stamp; the counter is 64 bits wide and must not wrap. */
    method NewVersion() returns (version: Version)
      requires nextVersion < U64_MAX
      modifies this`nextVersion
      ensures nextVersion == old(nextVersion) + 1 && version == Decimal(nextVersion)
    {
      nextVersion := nextVersion + 1;
      version := Decimal(nextVersion);
    }

    method Get(location: Location) returns (stored: Option<Object<B>>)
      ensures stored == At(State(), location)
    {
      stored := if location in objects then Some(objects[location]) else None;
    }

    method Create(location: Location, bytes: B) returns (reply: StoreReply<B>)
      requires Valid() && nextVersion < U64_MAX
      modifies this
      ensures Valid() && (State(), reply) == Perform(old(State()), location, StoreOp.Create(bytes))
    {
      MemoryKeepsContract(State(), location, StoreOp.Create(bytes));
      if location in objects {
        return AlreadyExists(objects[location].version);
      }
      var version := NewVersion();
      objects := objects[location := Object(bytes, version)];
      reply := Wrote(version);
    }

    method Replace(location: Location, expected: Version, bytes: B) returns (reply: StoreReply<B>)
      requires Valid() && nextVersion < U64_MAX
      modifies this
      ensures Valid() && (State(), reply) == Perform(old(State()), location, StoreOp.Replace(expected, bytes))
    {
      MemoryKeepsContract(State(), location, StoreOp.Replace(expected, bytes));
      if location in objects && objects[location].version == expected {
        var version := NewVersion();
        objects := objects[location := Object(bytes, version)];
        reply := Wrote(version);
      } else {
        reply := Conflict(if location in objects then Some(objects[location].version) else None);
      }
    }

    /** What other clients do to the object meanwhile. */
    method Interfere(location: Location, writes: seq<B>)
      requires Valid() && nextVersion + |writes| <= U64_MAX
      modifies this
      ensures Valid() && State() == OthersWrite(old(State()), location, writes)
      ensures nextVersion <= old(nextVersion) + |writes|
    {
      if location !in objects { return; }
      ghost var start := State();
      for i := 0 to |writes|
        invariant Valid() && location in objects
        invariant State() == OthersWrite(start, location, writes[..i])
        invariant nextVersion == start.nextVersion + i
      {
        assert writes[..i + 1][..i] == writes[..i];
        var reply := Replace(location, objects[location].version, writes[i]);
      }
      assert writes[..|writes|] == writes;
    }
  }
}
