/** One complete operation of a structure handle on the memory store, as its caller sees it:
    read, decide, then replace, with the writes other clients slip in before the replace. */
module Attempts {
  import opened Prelude
  import opened StoreContract
  import opened CasProtocol
  import opened MemoryStores

  datatype AttemptReply<+R> =
    | Replied(reply: Reply<R>)
    | Missing

  /** The store afterwards and the reply; `writes` happen between the read and the replace of a
      call that writes. */
  function Attempt<D, O, R>(
    sys: Structure<D, O, R>, m: Memory<D>, location: Location, op: O, draw: Uuid, writes: seq<D>)
    : (Memory<D>, AttemptReply<R>)
  {
    match sys.early(op)
    case Some(result) => (m, Replied(Returned(result)))
    case None =>
      if location !in m.objects then (m, Missing)
      else
        match sys.apply(m.objects[location].bytes, op, draw)
        case Keep(result) => (m, Replied(Returned(result)))
        case Put(doc, result) =>
          Submit(OthersWrite(m, location, writes), location, m.objects[location].version, doc, result)
  }

  /** The conditional replace and how its outcome is reported. */
  function Submit<D, R>(
    m: Memory<D>, location: Location, expected: Version, doc: D, result: R): (Memory<D>, AttemptReply<R>) {
    var (after, reply) := Perform(m, location, Replace(expected, doc));
    (after, Replied(if reply.Wrote? then Returned(result) else Conflicted(expected, VersionOf(At(m, location)))))
  }

  /** A call that wants to write does so exactly when nobody wrote since its read; otherwise it
      reports the conflict and leaves the last of the other writes in place. */
  lemma {:induction false} WritesUnlessOvertaken<D, O, R>(
    sys: Structure<D, O, R>, m: Memory<D>, location: Location, op: O, draw: Uuid, writes: seq<D>)
    requires Stamped(m) && location in m.objects && sys.Decide(m.objects[location].bytes, op, draw).Put?
    ensures var (after, reply) := Attempt(sys, m, location, op, draw, writes);
            var decided := sys.Decide(m.objects[location].bytes, op, draw);
            && Stamped(after) && location in after.objects
            && if writes == [] then
                 && reply == Replied(Returned(decided.result))
                 && after.objects[location].bytes == decided.doc
                 && after.nextVersion == m.nextVersion + 1
               else
                 && reply == Replied(Conflicted(m.objects[location].version, Some(after.objects[location].version)))
                 && after.objects[location].bytes == writes[|writes| - 1]
                 && after.nextVersion == m.nextVersion + |writes|
  {
    OthersWriteLast(m, location, writes);
    MemoryKeepsContract(OthersWrite(m, location, writes), location,
                        Replace(m.objects[location].version, sys.Decide(m.objects[location].bytes, op, draw).doc));
  }

  /** What a call is told that does not write, whatever others write: a call refused early is told so even without an
      object; otherwise it is told that there is no object exactly if there is none; and a call that
      keeps the document is told its result. In all three cases the store stays as it was. */
  lemma {:induction false} AnswersWithoutWriting<D, O, R>(
    sys: Structure<D, O, R>, m: Memory<D>, location: Location, op: O, draw: Uuid, writes: seq<D>)
    ensures var (after, reply) := Attempt(sys, m, location, op, draw, writes);
            && (sys.early(op).Some? ==> after == m && reply == Replied(Returned(sys.early(op).value)))
            && (reply == Missing <==> sys.early(op).None? && location !in m.objects)
            && (reply == Missing ==> after == m)
            && (location in m.objects && sys.Decide(m.objects[location].bytes, op, draw).Keep? ==>
                  && after == m
                  && reply == Replied(Returned(sys.Decide(m.objects[location].bytes, op, draw).result)))
  {
  }
}
