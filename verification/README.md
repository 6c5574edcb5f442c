# objsds: what its protocols promise

objsds keeps a whole data structure in one object of an object store. A mutation reads the object
with its version, computes a new document, and replaces the object only if the version is still
current. This project models that design and proves what it promises, for any number of clients and
every interleaving of their store steps.

The layers, from the bottom:

- `Bytes`, `Envelopes`, `Naming`: big-endian numbers, hexadecimal text, the envelope of a managed
  file, and the paths of objects, locks and temporary files.
- `Disks`, `Filesystems`, `FilesystemTraces`, `FilesystemRefinement`, `FilesystemDurability`,
  `FilesystemCalls`, `FilesystemStores`, `FilesystemAnswers`: the filesystem store. `Disks` separates what
  running processes see from what a crash may leave. `Filesystems` is a step machine in which every lock, system call
  and failure is a step and a process may die between any two; `FilesystemRefinement` proves that it
  keeps the contract of an atomic store and that successfully answered writes survive crashes;
  `FilesystemTraces` ties the operations back to the calls and renames of the run, and
  `FilesystemDurability` says exactly what a crash can lose. `FilesystemStores` is the same code as
  straight-line methods; `FilesystemCalls` shows that each of their calls is a run of the machine, and
  `FilesystemAnswers` says when a call reports an error and when a lock is granted.
- `StoreContract`: the contract of the store interface. The machines of `CasProtocol` and `Lifecycles` rely
  on it alone.
- `MemoryStores`: the in-process store as a class, which keeps the contract.
- `CasProtocol`, `Linearizability`, `Replies`: read, decide, conditionally replace, for any structure given as a
  function from documents to outcomes. Store errors are ambiguous: the write may have happened. `Replies` ties
  what a caller is told to what the store answered.
- `SortedSearch`, `QueueModel`, `QueueHistory`, `QueueSafety`, `QueueOrder`, `LogModel`, `MapModel`,
  `Metadata`: the three structures and what every history and every run of them satisfies.
- `Attempts`, `Queues`, `Logs`, `Maps`: the handles' methods over the memory store, with the loops and
  in-place changes of the source, each proved equal to one attempt of the protocol; and the
  documented bounded retry loop.
- `DurableStructures`, `DurableClients`, `DurableProgress`, `DurableQueue`: clients of a structure on the
  filesystem store, from the effects they have up to what they are told, end to end through crashes.
- `Lifecycles`: racing creators, openers and users of one location.
- `JsonValidation`: the depth-first check of values before they are stored.

## Reading the statements

- A call that takes effect is an entry of the history, at the time of its replace if it wrote and of its
  read if it did not. `Legal(sys, doc, h)` says that running the entries of `h` one after another from
  `doc` gives every result in `h`. `FromEmpty(schema, h)` is that for an empty structure, together with
  all fresh identifiers being distinct.
- Identifiers, lease tokens and file revisions are fresh: each call owns one identifier that no other
  call owns, handed to it when it is invoked. They are ordered as bytes, but not in the order in which
  they are drawn, so new messages and records land anywhere. A repeated identifier
  makes a queue unreadable, as `QueueModel.PublishKeepsReadableIffNew` shows.
- Clock readings are arbitrary 64-bit numbers, belonging to the call: the source reads the clock before
  it reads the document, so lease decisions rest on a reading that may be stale. Lease windows
  start at that reading. Only the theorems about skew in `QueueOrder` mention true time.
- The bounds of `u32` attempts, `u64` milliseconds and the `u64` envelope length are explicit.
- In the handles' methods, `meanwhile` is what other clients write between the read and the replace.
- Every lemma switches Dafny's automatic induction off; the inductions are the lemma bodies.

## Model

| member | source | states |
|---|---|---|
| Linearizability.Linearizable | crates/objsds/src/lib.rs:10-14 | In every run of any number of clients the calls that took effect, in order, replay to the same results and the stored document; every returned call took effect once inside itself, every conflict left nothing and was caused by another client's write after its read, every store error has at most its own write; and nothing else takes effect: each effect is that of a call its client invoked and that was answered with its result, or with a store error after a write |
| Linearizability.RealTimeOrder | crates/objsds/src/lib.rs:10-14 | A call that returned before another was invoked takes effect before it |
| Linearizability.OnlyWritesChangeTheDocument | crates/objsds-queue/src/lib.rs:489-502 | The stored document changes only when a call takes effect by writing, and becomes what that call computes from the document of that very instant |
| Linearizability.EffectsFit | crates/objsds/src/lifecycle.rs:68-83 | One step records at most one effect, and it is the sequential decision on the current document although it was computed from an earlier snapshot |
| Linearizability.ConflictBound | crates/objsds-store-memory/src/store.rs:50-75 | With n clients, reported conflicts plus calls in progress bound to conflict never exceed (n - 1) times the committed writes |
| Linearizability.EachConflictHasItsCommit | crates/objsds/src/lib.rs:26-49 | In every run, k conflicts reported to one client are caused by k distinct writes of other clients, each committed between the read and the return of its own conflicted call, none of which took effect; so a loop that ends in a conflict wrote nothing and was overtaken once per attempt |
| Replies.RepliesAreEarned | crates/objsds-queue/src/lib.rs:489-502 | In every run, for every returned call: it was told of a store failure if and only if its last store step was answered with an error; a result if and only if it was refused early, kept what it read, or its replace was answered with success; a conflict if and only if its replace was refused, with the version it had read and the version stored instead |
| Replies.EveryAnswerIsTold | crates/objsds-queue/src/lib.rs:489-502 | In every run a call that is refused early, fails to read, keeps what it read, or has its replace answered is over and told in that step, and in no other |
| Replies.UndisturbedCall | crates/objsds-queue/src/lib.rs:451-502 | From every reachable state an idle client whose call nobody disturbs is told what the call decides on the current document, which is replaced accordingly |
| Replies.ErrorsAreAmbiguous | crates/objsds-store/src/store.rs:10-43 | From every reachable state in which a replace may still succeed, a store error can be reported after the document was stored and just as well after nothing was |
| Metadata.ReasonIsFirstDifference | crates/objsds/src/document.rs:5-31 | The gate lets through exactly the header asked for; otherwise its reason names the first differing field in the order format, kind, schema, with what was asked for and what is stored |
| QueueModel.ReadableIffSorted | crates/objsds-queue/src/lib.rs:460-485 | A snapshot passes the read gate if and only if its metadata match and all its identifiers, not only neighbours, are strictly increasing |
| QueueModel.BadLeaseIsRefused | crates/objsds-queue/src/lib.rs:360-368 | A claim is refused before reading if and only if its lease is empty or would end beyond 64 bits |
| QueueModel.UnreadableIsRefused | crates/objsds-queue/src/lib.rs:460-485 | On a document that does not fit, every call fails with the first difference, and on an unsorted one with corruption, in both cases exactly then and without writing |
| QueueModel.WritesIff | crates/objsds-queue/src/lib.rs:332-429 | Exactly the calls told that a message was published, claimed or acknowledged write |
| QueueModel.FirstAvailable | crates/objsds-queue/src/lib.rs:369-376 | The first message whose lease is absent or expired at the reading; none only if there is none |
| QueueModel.PublishAdds | crates/objsds-queue/src/lib.rs:337-352 | Publishing adds one unclaimed message and keeps the others and the order, wherever the identifier lands |
| QueueModel.PublishKeepsReadableIffNew | crates/objsds-queue/src/lib.rs:339-349 | A publish leaves a readable queue if and only if its identifier is new; with a repeated one every later read finds the queue corrupt |
| QueueModel.ClaimTakesOldest | crates/objsds-queue/src/lib.rs:369-391 | A claim takes the available message with the least identifier, changes only its attempts and lease, and fails if its counter is full; nothing is claimed only if nothing is available |
| QueueModel.AckRemovesHeldMessage | crates/objsds-queue/src/lib.rs:411-429 | An ack removes the message exactly when it is held under this token by an unexpired lease; each other answer holds exactly under its documented condition |
| QueueModel.AvailableIffNobodyHolds | crates/objsds-queue/src/lib.rs:369-425 | At any reading a message may be claimed if and only if no token would acknowledge it: the two boundaries of a lease never disagree |
| QueueHistory.HistoryDeterminesDocument | crates/objsds-queue/src/lib.rs:8-19 | After any history the queue holds exactly the messages published and not acknowledged, each with its published value, one attempt per committed claim, and the lease of the last claim |
| QueueHistory.Extends | crates/objsds-queue/src/lib.rs:337-429 | Every operation keeps the agreement of history and document, and the numbering and separation of claims |
| QueueSafety.RepliesAreTrue | crates/objsds-queue/src/lib.rs:97-112 | At its place in the history every reply is right: the oldest available message or none, each ack outcome if and only if its condition holds, the length, the new identifier |
| QueueSafety.OtherSchemasAreTold | crates/objsds-queue/src/lib.rs:471-476 | Through a handle of another schema every call that is not refused early is told both schemas and writes nothing |
| QueueSafety.LeaseExclusion | crates/objsds-queue/src/lib.rs:363-391 | Without any assumption on clocks, the windows of committed claims of one message are disjoint and increasing in commit order, with different tokens, and no time lies in two of them; every deadline fits 64 bits |
| QueueSafety.WorkersNeverOverlap | README.md:81-84 | The same in runs, for any two claims handed to workers: disjoint windows, different tokens and attempts, the same value |
| QueueSafety.AttemptsCountClaims | crates/objsds-queue/src/lib.rs:380-391 | The k-th committed claim of a message carries attempt k and the published value, and k fits 32 bits |
| QueueSafety.Conservation | crates/objsds-queue/src/lib.rs:337-429 | The published identifiers are the disjoint union of the queued and the acknowledged ones; each is acknowledged at most once; queued values are the published ones |
| QueueSafety.PublishedOnce | crates/objsds-queue/src/lib.rs:337-352 | No identifier is published twice, and the value under it is the one published |
| QueueSafety.AckAuthority | crates/objsds-queue/src/lib.rs:408-429 | A granted ack belongs to the latest claim of its message, by token and before the deadline by its reading; afterwards the message is never queued or claimed again |
| QueueSafety.ReclaimRevokesToken | README.md:81-84 | Once a message was reclaimed, no earlier token acknowledges it |
| QueueSafety.NeverCorrupt | crates/objsds-queue/src/lib.rs:477-485 | No call of any history finds the queue corrupt, nor incompatible through a handle of the right schema |
| QueueSafety.RunsHaveHistories | crates/objsds-queue/src/lib.rs:451-502 | Whatever the interleaving, including ambiguous store errors, the stored queue is what a legal history of fresh identifiers leaves |
| QueueSafety.PublishOutcomeIsTrue | crates/objsds-queue/src/lib.rs:332-336 | A publish that reported a conflict was not applied; one that succeeded stays until acknowledged |
| QueueSafety.DrainsInOrder | crates/objsds-queue/src/lib.rs:359-429 | A lone worker empties n fresh messages in exactly n rounds, each once, in identifier order, as attempt 1; then no claim gets anything |
| QueueOrder.ClaimsTakeEarliestPublished | crates/objsds-queue/src/lib.rs:354-376 | If identifiers increase in the order of publication, every claim of any history gets the earliest published of all messages available at its reading |
| QueueOrder.ClaimsInPublishOrderIff | crates/objsds-queue/src/lib.rs:637-655 | From the queue any history leaves, a worker that keeps claiming at one reading, without acks, gets exactly the available messages and then none; in the order of publication if and only if their identifiers increase in that order |
| QueueOrder.PublishOrderIffDrawnInOrder | crates/objsds-queue/src/lib.rs:339-349 | A queue only published to stands in order of publication if and only if its identifiers were drawn increasing |
| QueueOrder.DrainsInPublishOrderIff | crates/objsds-queue/src/lib.rs:359-429 | A worker alternating claims and acks empties a queue only published to in order of publication if and only if the identifiers were drawn increasing |
| QueueOrder.LaterPublicationFirst | crates/objsds-queue/src/lib.rs:354 | A concrete history in which, of two messages published by different clients, the one published later is the "oldest" |
| QueueOrder.SkewBoundsOverlap | crates/objsds-queue/src/lib.rs:19 | With clocks off by at most a skew either way, the true times at which two workers both believe they hold a message lie within that skew of the earlier deadline, less than twice the skew apart; with no skew there are none |
| QueueOrder.SkewedClocksOverlap | README.md:90-91 | That bound is reached, for every skew and every positive lease of at least twice the skew whose double fits 64 bits |
| Attempts.WritesUnlessOvertaken | crates/objsds/src/lib.rs:10-14 | A call that wants to write commits if and only if nobody wrote since its read; otherwise it reports the current version and leaves the others' last write |
| Attempts.AnswersWithoutWriting | crates/objsds-queue/src/lib.rs:359-378 | For every structure: a call refused early is told so even without an object; the object is reported missing if and only if there is none and the call was not refused early; a call that keeps the document is told its result; none of these touches the store |
| Queues.QueueHandle.Publish | crates/objsds-queue/src/lib.rs:337-352 | The method with its binary partition performs exactly the modelled publish, whatever others write meanwhile |
| Queues.QueueHandle.Claim | crates/objsds-queue/src/lib.rs:359-401 | The method performs exactly the modelled claim, including both error paths before and after reading |
| Queues.QueueHandle.Ack | crates/objsds-queue/src/lib.rs:408-429 | The method with its binary search performs exactly the modelled ack |
| Queues.QueueHandle.Length | crates/objsds-queue/src/lib.rs:432-434 | The method reports the length of one snapshot and changes nothing |
| SortedSearch.NeighboursSuffice | crates/objsds-queue/src/lib.rs:477-485 | Comparing neighbours decides whether the whole sequence is increasing |
| SortedSearch.PartitionPoint | crates/objsds-queue/src/lib.rs:339 | The loop finds the boundary between elements that satisfy the predicate and those that do not |
| SortedSearch.BinarySearch | crates/objsds-queue/src/lib.rs:411-416 | The loop finds what a scan from the left finds, and otherwise the place where the identifier belongs |
| SortedSearch.Rank | crates/objsds/src/log/mod.rs:39-42 | The place of an identifier: all before it are smaller and the next one is not |
| SortedSearch.InsertKeepsOrder | crates/objsds-queue/src/lib.rs:341-349 | Inserting a new identifier at its place keeps the order and all elements |
| SortedSearch.OrderIffNew | crates/objsds-queue/src/lib.rs:341-349 | Inserting at the place found keeps the order if and only if the identifier is new |
| SortedSearch.RemoveKeepsOrder | crates/objsds-queue/src/lib.rs:426 | Removing one element keeps the order and exactly the others |
| LogModel.ReadableIffSorted | crates/objsds/src/log/mod.rs:101-116 | A snapshot passes the read gate if and only if its metadata match and its identifiers are strictly increasing |
| LogModel.UnreadableIsRefused | crates/objsds/src/log/mod.rs:101-116 | On a document that does not fit, every call fails with the first difference, and on an unsorted one with corruption, in both cases exactly then and without writing |
| LogModel.WritesIff | crates/objsds/src/log/mod.rs:30-79 | Exactly the calls told that a record was appended write |
| LogModel.SuffixIsFilter | crates/objsds/src/log/mod.rs:75-79 | For every identifier, present or absent, the suffix after it is the filter of the records to greater ones |
| LogModel.GetIsMembership | crates/objsds/src/log/mod.rs:52-61 | Looking a record up finds it if and only if it is listed |
| LogModel.LogHoldsAppends | crates/objsds/src/log/mod.rs:36-46 | After any history the log holds exactly the committed appends, in identifier order |
| LogModel.SnapshotsGrow | crates/objsds/src/log/mod.rs:63-68 | Of two snapshots the earlier is an order-preserving part of the later, with equal values |
| LogModel.ReadsAreTrue | crates/objsds/src/log/mod.rs:48-79 | At its place in the history every read reports exactly what was appended before |
| LogModel.OtherSchemasAreTold | crates/objsds/src/log/mod.rs:101-116 | Through a handle of another schema every call is told both schemas and writes nothing |
| LogModel.ListingsGrow | crates/objsds/src/log/mod.rs:63-68 | In every run a listing is an order-preserving part of any listing asked for after it returned |
| LogModel.AppendsAreListed | crates/objsds/src/log/mod.rs:30-46 | In every run a returned append is in every later listing, and one that reported a conflict is in none |
| LogModel.ResumingMissesNothingIff | crates/objsds/src/log/mod.rs:70-79 | A reader that resumes after an identifier misses nothing if and only if every append since its snapshot was given a greater identifier; what it misses are the appends given others |
| Logs.LogHandle.Append | crates/objsds/src/log/mod.rs:36-46 | The method with its binary search performs exactly the modelled append |
| Logs.LogHandle.Get | crates/objsds/src/log/mod.rs:52-61 | The method with its binary search performs exactly the modelled lookup |
| Logs.LogHandle.RecordsAfter | crates/objsds/src/log/mod.rs:75-79 | The method with its partition performs exactly the modelled suffix |
| Logs.LogHandle.Records | crates/objsds/src/log/mod.rs:66-68 | The method lists one snapshot and changes nothing |
| MapModel.LastWriteWins | crates/objsds/src/map/mod.rs:49-87 | Under every key the map holds what the last committed write of that key left |
| MapModel.RepliesAreTrue | crates/objsds/src/map/mod.rs:33-87 | At its place in the history every reply reports what the last write of its key left |
| MapModel.UnreadableIsRefused | crates/objsds/src/map/mod.rs:109-115 | On a document that does not fit, every call fails with the first difference, exactly then and without writing |
| MapModel.WritesIff | crates/objsds/src/map/mod.rs:33-87 | Exactly the calls told that a value was stored, inserted, or removed from a present key write |
| MapModel.OtherSchemasAreTold | crates/objsds/src/map/mod.rs:109-115 | Through a handle of another schema every call is told both schemas and writes nothing |
| MapModel.FirstContenderWins | crates/objsds/src/map/mod.rs:60-73 | Where a key is only inserted if absent, the first contender wins and every later one is told the winner's value |
| MapModel.AtMostOneWinner | crates/objsds/src/map/mod.rs:60-73 | In every run at most one of the calls contending for such a key is told it won, and the others get its value |
| Maps.MapHandle.Insert | crates/objsds/src/map/mod.rs:49-53 | The method performs exactly the modelled insert |
| Maps.MapHandle.InsertIfAbsent | crates/objsds/src/map/mod.rs:60-73 | The method performs exactly the modelled conditional insert |
| Maps.MapHandle.Remove | crates/objsds/src/map/mod.rs:80-87 | The method performs exactly the modelled removal |
| Maps.MapHandle.InsertWithLimit | crates/objsds/src/lib.rs:26-49 | The loop performs exactly the modelled retries and reports the last conflict |
| Maps.RetryInsertsOnceOrNever | crates/objsds/src/lib.rs:26-49 | The loop succeeds exactly when some attempt is not overtaken, and then inserted once, into the document that attempt read; a final conflict means it inserted nothing and others committed at least once per attempt |
| Maps.RetryStopsOnOtherErrors | crates/objsds/src/lib.rs:26-49 | Only conflicts are retried: without an object, or on a document that does not fit, the loop stops at its first attempt with the reason, having written nothing |
| MemoryStores.MemoryKeepsContract | crates/objsds-store-memory/src/store.rs:22-75 | Every operation of the memory store keeps the atomic contract, stamps a version never used before, and touches no other location |
| MemoryStores.NextVersionIsNew | crates/objsds-store-memory/src/state.rs:12-15 | The decimal text of the next count differs from every version given out |
| MemoryStores.MemoryStore.NewVersion | crates/objsds-store-memory/src/state.rs:12-15 | The counter advances by one and its text is the version |
| MemoryStores.MemoryStore.Get | crates/objsds-store-memory/src/store.rs:22-25 | What is stored at the location |
| MemoryStores.MemoryStore.Create | crates/objsds-store-memory/src/store.rs:27-48 | The modelled atomic creation, of which the contract is proved |
| MemoryStores.MemoryStore.Replace | crates/objsds-store-memory/src/store.rs:50-75 | The modelled atomic replacement, of which the contract is proved |
| FilesystemRefinement.FilesystemKeepsContract | crates/objsds-store-filesystem/src/store.rs:48-148 | In every interleaving with every failure, each returned call is explained by one atomic operation inside it that keeps the contract, and each operation is that of a call its process started; refusals never wrote; the writes are exactly the renames that succeeded, so a store error wrote only if its rename did; the file always holds the last result |
| FilesystemRefinement.CrashKeepsAcknowledgedWrites | crates/objsds-store-filesystem/src/store.rs:51-66 | A crash at any moment leaves the complete result of a prefix of the operations that includes every write answered successfully, and the store can start again from it |
| FilesystemDurability.DurableIffSynced | crates/objsds-store-filesystem/src/store.rs:58-60 | In every reachable state no crash changes the object if and only if every successful rename was followed by a successful directory sync; otherwise some crash brings back what an earlier operation left |
| FilesystemDurability.SyncedMeansDurable | crates/objsds-store-filesystem/src/store.rs:59 | Right after a successful directory sync a crash loses nothing |
| FilesystemDurability.ReadMayBeLost | crates/objsds-store-filesystem/src/store.rs:58-66 | From every state at rest, every write that may proceed can be answered with a store error, read by another process, and then lost by a crash |
| FilesystemDurability.VersionNamesObject | crates/objsds-store/src/store.rs:31-32 | At any two moments, equal versions mean the same object |
| DurableStructures.EffectsReplay | crates/objsds-store-filesystem/src/store.rs:129-147 | Clients that create empty documents, read, and replace documents they read keep the object equal to the replay of the calls that took effect |
| DurableStructures.ObjectHoldsHistory | crates/objsds-store-filesystem/src/store.rs:107-148 | In every run, after any number of operations, the object holds what the legal history of the calls so far leaves |
| DurableStructures.CrashKeepsHistory | crates/objsds-store-filesystem/src/store.rs:48-66 | A crash at any moment leaves a legal history that continues the past and has a place for every mutation answered successfully; the store can serve again with it as the past |
| DurableQueue.QueueSurvivesCrash | crates/objsds-queue/src/lib.rs:8-16 | End to end: after a crash every message whose publish was answered is queued with its value or acknowledged; every answered claim stands with its token, attempt and deadline, its lease apart from all others of the message, made before or after; no message whose ack was answered is back |
| DurableClients.DurablyLinearizable | crates/objsds-queue/src/lib.rs:451-502 | Clients with control points on the filesystem store, whatever fails and whoever dies: replaying the calls that took effect, reads included, in the order of their times gives every result and the stored document; every reply is explained, conflicts by another client's write and store errors by at most the own write; every entry is that of a call its client made |
| DurableClients.RepliesAreAnswers | crates/objsds/src/lifecycle.rs:68-83 | On the filesystem store every reply is what the answer of the store calls for: a store failure after an error, a conflict with both versions after a refused replace, a result after a successful replace or a read that was enough, absence after a read that found nothing |
| DurableProgress.EveryAnswerIsTold | crates/objsds/src/lifecycle.rs:68-83 | In every run a client that the store answers is told in that step that its call is over, unless it goes on to write what it decided |
| DurableProgress.UndisturbedCall | crates/objsds-queue/src/lib.rs:451-502 | From every reachable state in which the lock is free, a call that nobody disturbs ends: its client is told of absence or of what the call decides on the stored document, which a write then replaces under the new version |
| DurableClients.ToldSurvivesCrash | crates/objsds-store-filesystem/src/store.rs:48-66 | Every result a client was told of a call that wrote is in the history that any crash leaves |
| DurableQueue.PromisesSurviveCrash | crates/objsds-queue/src/lib.rs:8-16 | A worker told that its message is published, that it got a claim, or that its ack was granted can rely on it across a crash at any moment |
| FilesystemRefinement.OneWriterAtATime | crates/objsds-store-filesystem/src/lock.rs:18-32 | Two processes holding the lock at once are both readers |
| FilesystemAnswers.LockGrantedIff | crates/objsds-store-filesystem/src/lock.rs:18-32 | In every reachable state a waiting reader may take the lock if and only if no process holds it for a write, and a waiting writer if and only if no process holds it |
| FilesystemAnswers.ErrorsAreOwnFailures | crates/objsds-store-filesystem/src/store.rs:48-148 | In every run a call reports a store error if and only if one of its own steps failed: lock, read, creation, writing or sync of the temporary file, rename, or directory sync |
| FilesystemAnswers.DeathFreesLock | crates/objsds-store-filesystem/src/lock.rs:18-32 | From every reachable state a process at work may die: its lock is free, nothing is answered, and the disk stays as it is |
| FilesystemRefinement.StepKeepsInv | crates/objsds-store-filesystem/src/store.rs:48-148 | Every single step, failure or death of a process keeps the agreement of disk, locks, effects and answers |
| FilesystemTraces.EffectsWereStarted | crates/objsds-store-filesystem/src/store.rs:107-148 | Every operation of a run belongs to a call its process started |
| FilesystemTraces.WritesWereRenamed | crates/objsds-store-filesystem/src/store.rs:51-66 | Every write of a run was made by a successful rename of its own call, at its own time |
| FilesystemTraces.RenamesTakeEffect | crates/objsds-store-filesystem/src/store.rs:58 | Every successful rename is the write of its call |
| FilesystemCalls.CallRuns | crates/objsds-store-filesystem/src/store.rs:107-148 | Whenever nobody holds the lock, a whole call, with any of its system calls failing, is a run of the step machine: it leaves and answers what the methods of the store do, through exactly the same disks |
| FilesystemCalls.LeavesNoTemporary | crates/objsds-store-filesystem/src/store.rs:62-65 | A publication that succeeds, or fails and can clean up, leaves no temporary name behind, and it never touches another |
| FilesystemStores.FilesystemStore.Prepare | crates/objsds-store-filesystem/src/store.rs:50-57 | Creating, filling and syncing the temporary file leaves the object alone at every point; it succeeds exactly when no call failed and the name was free |
| FilesystemStores.FilesystemStore.Expose | crates/objsds-store-filesystem/src/store.rs:58-59 | Renaming and syncing the directory shows the complete new object unless the rename failed, and a crash in between leaves old or new |
| FilesystemStores.FilesystemStore.Publish | crates/objsds-store-filesystem/src/store.rs:48-66 | After every system call a crash would leave the complete old or complete new object; success means the new one alone; failure changes the object only if the directory sync failed; the disks gone through are those of a run of the step machine |
| FilesystemStores.FilesystemStore.Put | crates/objsds-store-filesystem/src/store.rs:112-147 | Encoding and publishing: the version answered is that of the new object; the temporary name is gone unless its removal after a failure failed |
| FilesystemStores.FilesystemStore.Get | crates/objsds-store-filesystem/src/store.rs:107-111 | Keeps the contract, failing only with its lock or its read; answers as the step machine does |
| FilesystemStores.FilesystemStore.Create | crates/objsds-store-filesystem/src/store.rs:112-128 | Keeps the contract under every failure; success is durable; leaves and answers what the step machine does |
| FilesystemStores.FilesystemStore.Replace | crates/objsds-store-filesystem/src/store.rs:129-147 | Keeps the contract under every failure; success is durable; leaves and answers what the step machine does |
| FilesystemStores.CrashLeavesOldOrNew | crates/objsds-store-filesystem/src/store.rs:48-66 | With a durable name beforehand, a crash at any point of a publication leaves a readable file holding the old or the new object |
| Disks.CrashIsSound | crates/objsds-store-filesystem/src/store.rs:56-59 | Whichever rename survives, the crashed disk is sound and holds the complete object of that rename |
| Disks.UnsyncedMayBecomeAnything | crates/objsds-store-filesystem/src/store.rs:56-58 | Renaming without the sync of the file before it would let a crash leave anything in the object's file |
| Envelopes.Encode | crates/objsds-store-filesystem/src/format.rs:10-20 | The buffer built part by part is the envelope |
| Envelopes.Layout | crates/objsds-store-filesystem/src/format.rs:6-20 | The magic text, the format byte, revision, length and content stand at their places and read back |
| Envelopes.DecodeInvertsEnvelope | crates/objsds-store-filesystem/src/format.rs:10-46 | Decoding gives back content and revision, for all of them |
| Envelopes.DecodedIsEnvelope | crates/objsds-store-filesystem/src/format.rs:22-46 | Whatever decodes is exactly the envelope of its result |
| Envelopes.RefusedIffNoEnvelope | crates/objsds-store-filesystem/src/format.rs:22-46 | An input is refused if and only if it is no envelope, and which error it gets |
| Envelopes.ResizedIsRefused | crates/objsds-store-filesystem/src/format.rs:36-41 | Every truncation or extension of an envelope is refused |
| Bytes.ReadsBack | crates/objsds-store-filesystem/src/format.rs:16-17 | Big-endian writing is undone by reading, at any width |
| Bytes.WritesBack | crates/objsds-store-filesystem/src/format.rs:29-35 | Big-endian reading is undone by writing |
| Bytes.OrderOfBytesIsOrderOfValues | crates/objsds/src/log/record.rs:6-7 | Identifiers compare as numbers exactly as their bytes compare lexicographically |
| Bytes.UuidTextIsInjective | crates/objsds-store-filesystem/src/format.rs:12 | Different revisions have different version texts |
| Bytes.UuidTextReadsBack | crates/objsds-store-filesystem/src/format.rs:12 | The version text has hyphens at 8, 13, 18 and 23, and its digits read back as the sixteen bytes of the revision |
| Bytes.HexIsInjective | crates/objsds-store-filesystem/src/path.rs:41-46 | Different byte strings have different hexadecimal texts |
| Bytes.HexReadsBack | crates/objsds-store-filesystem/src/path.rs:41-46 | Reading the hexadecimal text in base 16 gives back the bytes |
| Naming.StructureIffSegments | crates/objsds-store/src/location.rs:29-34 | A location results if and only if all three segments are valid; the second check never refuses |
| Naming.SegmentIffResolves | crates/objsds-store/src/location.rs:7-9 | A text is a valid segment if and only if, walked as a path, it leads to the entry of that name |
| Naming.LocationIffParts | crates/objsds-store/src/location.rs:20-26 | A text is a location if and only if it is not empty and no component but the last is empty |
| Naming.StructureIsInjective | crates/objsds-store/src/location.rs:29-34 | Different structures have different locations |
| Naming.LockPathIsInjective | crates/objsds-store-filesystem/src/path.rs:40-48 | Different locations have different lock files |
| Naming.ObjectPathIsInjective | crates/objsds-store-filesystem/src/path.rs:7-18 | Two structures under one root have the same file if and only if they have the same location, the same three segments, and the same lock file |
| Naming.Directories | crates/objsds-store-filesystem/src/store.rs:48-50 | The file of a structure and the temporary file of its publication lie in the same directory, its lock in the lock directory of the root |
| Naming.LocationLeadsToFile | crates/objsds-store/src/location.rs:28-34 | Walked from the root, the location leads through the namespace and the kind to the file of the name |
| Naming.ObjectsAreNotLocks | crates/objsds-store-filesystem/src/path.rs:7-48 | The file of a structure is no lock file of any location |
| Naming.ObjectsAreNotTemporary | crates/objsds-store-filesystem/src/store.rs:50 | The file of a structure is no temporary file of any publication |
| Naming.TemporaryIsInjective | crates/objsds-store-filesystem/src/store.rs:50 | Publications with different identifiers or in different directories use different temporary files |
| Lifecycles.OneCreator | crates/objsds/src/lifecycle.rs:41-66 | However creators and openers race: at most one creation happens and none overwrites an existing object, the header stays its creator's, everyone let in asked for that header, everyone turned away as incompatible learns its first difference from that header, and opening-or-creating never reports absence or existence |
| Lifecycles.OutcomesAreTrue | crates/objsds/src/lifecycle.rs:5-66 | In every run, for every finished attempt: it failed if and only if one of its own exchanges was answered with a store error; it reports existence if and only if its lone creation was refused, absence if and only if its lone read found nothing; it was let in if and only if its creation wrote or its read found the header asked for; and its exchanges are those its request calls for, made by it in order with the store as it then was |
| Lifecycles.EveryAttemptIsTold | crates/objsds/src/lifecycle.rs:41-66 | In every run an attempt is over and told in the step that answers its last exchange, and a change gives the handle back |
| Lifecycles.UndisturbedAttempt | crates/objsds/src/lifecycle.rs:18-66 | From every reachable state an attempt that nobody disturbs ends with the right outcome for each mode, and writes an empty document exactly if it creates |
| Lifecycles.UndisturbedChange | crates/objsds/src/lifecycle.rs:68-83 | From every reachable state a client with an open handle that nobody disturbs replaces the body, keeps the header and keeps its handle |
| Lifecycles.HeaderLasts | README.md:115-117 | Once there, format version, kind and schema never change |
| Lifecycles.CreateStructure | crates/objsds/src/lifecycle.rs:18-30 | Creates the empty structure exactly when there was no object, and otherwise changes nothing; no other location is touched |
| Lifecycles.OpenOrCreateStructure | crates/objsds/src/lifecycle.rs:41-66 | Afterwards there is an object: the old one, the rival's, or a new empty one; the caller is let in if and only if its header is the one asked for, and otherwise told the first difference; no other location is touched |
| JsonValidation.ValidateJson | crates/objsds-napi/npm/src/index.ts:470-489 | The search ends on every finite graph, decides acceptance below its ancestors, restores them on success, and reports the first fault in the order of the children, which is a real one |
| JsonValidation.AcceptsIffJson | crates/objsds-napi/npm/src/index.ts:470-489 | Accepted if and only if every reachable leaf is JSON, every reachable object an array or plain, and none reaches itself; sharing is allowed |
| JsonValidation.JsonIffUnfolds | crates/objsds-napi/npm/src/index.ts:470-489 | A value is JSON if and only if it unfolds into a finite tree of JSON values: what is stored exists as text |
| JsonValidation.FirstFaultIsFirst | crates/objsds-napi/npm/src/index.ts:484-487 | The fault reported for a list of children is that of the first faulty child |
| JsonValidation.BlameFromChild | crates/objsds-napi/npm/src/index.ts:484-487 | A fault found below a child is a fault of the whole value: cycles through the object are cycles of it |
| JsonValidation.CheckJson | crates/objsds-napi/npm/src/index.ts:461-468 | The check as called, with no ancestors, returns normally exactly on JSON values, and otherwise reports the first fault |

Where text and code differ, the model follows the code: `claim` is documented to take the oldest message,
and takes the one with the least identifier. `QueueOrder` says exactly when these agree, for claims from
the queue that any history leaves.

## Left out

- The S3 adapter: a network client whose atomicity is its provider's. Its re-read after a failed condition may report a later version than the one that caused the conflict, and a request that timed out may take effect after the error was reported; neither is modelled.
- JSON text: objects hold documents and encoding is taken to be lossless; document errors other than unsorted identifiers do not occur.
- Generation of UUIDs and reading of clocks: fresh draws and arbitrary numbers instead.
- FilesystemRefinement.FilesystemKeepsContract: one location with its own file and lock, as `Naming` justifies; locations not made by `Location::structure`, symbolic links, directory creation, permissions and case-insensitive filesystems are not part of it; reading the file is one step under the lock.
- FilesystemRefinement.CrashKeepsAcknowledgedWrites: the durable states of a directory are those after any of the renames since its last successful sync; other damage by hardware is not modelled, nor is the durability of the parent directory's own entry, which the store does not sync. Reads are not durable: `FilesystemDurability.ReadMayBeLost` gives the runs in which a crash takes back what was read, and `DurableIffSynced` the exact condition.
- Linearizability.Linearizable: starts from an existing object, which nothing in the library deletes; calls on a missing one are in `Attempts` (`Missing`) and `Lifecycles`. A call that never returns is a client that takes no further step.
- MemoryStores.MemoryStore.NewVersion: requires that the 64-bit counter does not wrap.
- Envelopes.DecodedIsEnvelope: the length is compared as a 64-bit number; on a platform with 32-bit `usize` the source truncates it.
- Queues.QueueHandle.Publish: other clients act as a list of writes between read and replace; true interleaving is in `CasProtocol`.
- DurableClients.DurablyLinearizable: calls refused before they touch the store are not steps of its clients; creators of other schemas at the same location are covered by `Lifecycles` only.
- QueueOrder.ClaimsInPublishOrderIff: the worker claims at one reading, and no available message has a full attempt counter, on which `claim` would fail.
- QueueSafety.DrainsInOrder: assumes no competing clients and readings below the deadlines. Progress past a message whose attempt counter is full is not claimed: `claim` fails on it for as long as it is the oldest available.
- LogModel.ListingsGrow: compares listings of one schema; handles of another schema are refused by the metadata check.
- MapModel.LastWriteWins: entries are a mathematical map; the key order of listings is that of the standard library's sorted map. The versions returned by `insert` and `insert_if_absent` are not part of the replies.
- Map `get` and `entries` as methods: `MapModel.RepliesAreTrue` covers what they answer.
- JsonValidation.ValidateJson: the graph is a finite snapshot; getters and proxies that run code during the search, and the call stack's depth, are not modelled.
- The Node binding, the other TypeScript wrappers, builders, `Display` implementations and build scripts: they hold no deeper property.
