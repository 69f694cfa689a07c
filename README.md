# In-memory event store: the append engine

This project models the write and read core of `InMemoryEventStore`, an
in-memory event-sourcing store. The store keeps two pieces of state:

- the global log, every recorded event in commit order;
- the stream registry, a map from stream id to that stream's recorded events.

An append to a stream runs four steps in order:

1. The stream-state check: `NoStream` on a registered stream fails, and `StreamExists` on an unregistered stream fails. Otherwise an unseen stream is registered with no events.
2. The revision check: an explicit expected revision must equal the stream's current length.
3. The write: each input event, in order, is stamped with the stream's current length as its stream revision and the global log's current length as its global revision. It is then added to both sequences.
4. The result: the stream's new length, as the next revision a caller should expect.

`event_model.dfy` (module `EventModel`) holds the value-level model:

- the entities (`EventData`, `RecordedEvent`, `AppendError`, `AppendToStreamResponse`);
- the store's state as a `Store` value;
- the checks and the append as functions (`CheckStreamState`, `CheckStreamRevision`, `Commit`, `Append`);
- the store invariant `WellFormed`;
- the lemmas about these.

`in_memory_event_store.dfy` (module `InMemory`) holds the class `InMemoryEventStore`. Its two fields `allEvents` and `eventsPerStream` are updated in place. `DoAppendToStream` and the two `AppendToStream…` methods are proved to move the object's state (`Snapshot()`) and return exactly what `Append` says; `EnsureStreamState` and `EnsureStreamRevision` are tied in the same way to `CheckStreamState` and `CheckStreamRevision`, and `AppendRecordedEvent` states its new state directly. The constructor establishes the object invariant `Valid()`, which is `WellFormed` of the state, and `DoAppendToStream` and the two `AppendToStream…` methods keep it. The two inner helpers `EnsureStreamState` and `AppendRecordedEvent` neither need nor promise it: one recorded event added on its own, with any revisions, can break it. `WellFormed` says:

- global revisions run 0, 1, 2, … along the global log;
- every stream's revisions run 0, 1, 2, … along that stream, and each of its events names the stream;
- every logged event belongs to a registered stream;
- the global log filtered by a stream id (`OfStream`) equals that stream's sequence.

The model follows the code as written, including where an optimistic-concurrency store would be expected to behave otherwise:

- With no explicit revision, the revision check never fails: with state `Any` it returns at once, and with `NoStream` or `StreamExists` the expected value defaults to the live count, which is then compared with itself.
- An append with an explicit revision to an unseen stream registers the stream before the revision check can fail. A failed explicit-revision append to an unseen stream therefore leaves that stream registered and empty. A store of this kind would be expected to leave its state unchanged on every failed append; this code does not, and the model follows the code (`RevisionMismatch`).
- `ReadStream` returns the whole stream and `ReadAll` the whole log. The direction, start revision and count arguments are ignored; a TODO comment in `ReadStream` (InMemoryEventStore.cs:35) says they are meant to be used.

## Model

| member | source | states |
|---|---|---|
| InMemory.InMemoryEventStore.constructor | Luffy.EventStore.InMemory/InMemoryEventStore.cs:11-12 | a new store has an empty global log and no streams, and is well-formed |
| InMemory.InMemoryEventStore.IsEmpty | Luffy.EventStore.InMemory/InMemoryEventStore.cs:14-17 | true iff the global log is empty, which in a well-formed store holds iff every registered stream is empty |
| InMemory.InMemoryEventStore.AppendToStreamAtRevision | Luffy.EventStore.InMemory/InMemoryEventStore.cs:19-23 | moves the store as `Append` with state Any and the given revision; succeeds iff the revision equals the stream's current length; keeps the invariant |
| InMemory.InMemoryEventStore.AppendToStreamWithState | Luffy.EventStore.InMemory/InMemoryEventStore.cs:25-29 | moves the store as `Append` with the given state and no revision; fails iff NoStream meets a registered stream or StreamExists an unregistered one; keeps the invariant |
| InMemory.InMemoryEventStore.ReadStream | Luffy.EventStore.InMemory/InMemoryEventStore.cs:31-37 | the whole registered stream, whatever the other arguments; it equals the global log filtered by that id, and its j-th event has stream revision j |
| InMemory.InMemoryEventStore.ReadAll | Luffy.EventStore.InMemory/InMemoryEventStore.cs:39-42 | the whole global log, whatever the other arguments; its g-th event has global revision g |
| InMemory.InMemoryEventStore.DoAppendToStream | Luffy.EventStore.InMemory/InMemoryEventStore.cs:44-72 | runs both checks and the per-event loop; the new state and the result are exactly those of `Append` on the old state; keeps the invariant |
| InMemory.InMemoryEventStore.EnsureStreamRevision | Luffy.EventStore.InMemory/InMemoryEventStore.cs:74-88 | fails exactly when an explicit revision differs from the stream's length, with that revision as expected and the length as actual |
| InMemory.InMemoryEventStore.NextGlobalEventRevision | Luffy.EventStore.InMemory/InMemoryEventStore.cs:95-98 | the global log's length, greater than every logged event's global revision |
| InMemory.InMemoryEventStore.NextStreamEventRevision | Luffy.EventStore.InMemory/InMemoryEventStore.cs:100-103 | the stream's length, greater than the stream revision of each of its events |
| InMemory.InMemoryEventStore.AppendRecordedEvent | Luffy.EventStore.InMemory/InMemoryEventStore.cs:105-109 | the event is added at the end of its stream and at the end of the global log; nothing else changes |
| InMemory.InMemoryEventStore.EnsureStreamState | Luffy.EventStore.InMemory/InMemoryEventStore.cs:111-129 | moves the store as `CheckStreamState`; on success the stream is registered |
| EventModel.CheckStreamState | Luffy.EventStore.InMemory/InMemoryEventStore.cs:111-129 | on failure the store is unchanged; on success the stream is registered and the global log is unchanged |
| InMemory.InMemoryEventStore.GetStream | Luffy.EventStore.InMemory/InMemoryEventStore.cs:90-93 | the registered stream's events; in a well-formed store, exactly the global log's events of that stream, in order |
| EventModel.Record | Luffy.EventStore.InMemory/InMemoryEventStore.cs:55-65 | the recorded event names the target stream, copies the input's type, data and metadata, and carries the given stream and global revisions |
| EventModel.CheckStreamRevision | Luffy.EventStore.InMemory/InMemoryEventStore.cs:74-88 | on a registered stream, refuses exactly an explicit revision other than the stream's length, reporting that revision as expected and the length as actual; never refuses without an explicit revision |
| EventModel.Commit | Luffy.EventStore.InMemory/InMemoryEventStore.cs:53-66 | writing k events makes the global log and the target stream exactly k longer, registers no stream and leaves every other stream unchanged |
| EventModel.Append | Luffy.EventStore.InMemory/InMemoryEventStore.cs:44-72 | on success the result is the stream's prior length plus the batch size; on failure no event is written to the log or any stream, and at most the target stream is newly registered (empty) |
| EventModel.Stamp | Luffy.EventStore.InMemory/InMemoryEventStore.cs:53-66 | a batch becomes exactly as many recorded events as it has input events |
| EventModel.StampAt | Luffy.EventStore.InMemory/InMemoryEventStore.cs:55-65 | the i-th stamped event copies the i-th input and has stream revision base + i and global revision base + i |
| EventModel.CommitNothing | Luffy.EventStore.InMemory/InMemoryEventStore.cs:53-66 | writing an empty batch changes nothing |
| EventModel.CommitStep | Luffy.EventStore.InMemory/InMemoryEventStore.cs:53-66 | writing the first i + 1 events of a batch is writing the first i, then event i stamped with the lengths reached so far |
| EventModel.OfStreamConcat | Luffy.EventStore.InMemory/InMemoryEventStore.cs:105-109 | filtering by stream id distributes over appending to the log |
| EventModel.OfStreamStamp | Luffy.EventStore.InMemory/InMemoryEventStore.cs:105-109 | a stamped batch filtered by its own stream id is the whole batch, and by any other id is empty |
| EventModel.RegisterPreservesWellFormed | Luffy.EventStore.InMemory/InMemoryEventStore.cs:128 | registering an unseen stream with no events keeps the invariant |
| EventModel.CommitPreservesWellFormed | Luffy.EventStore.InMemory/InMemoryEventStore.cs:53-66 | writing a batch keeps revisions gap-free from 0 per stream and globally, and keeps the global log consistent with every stream |
| EventModel.AppendPreservesWellFormed | Luffy.EventStore.InMemory/InMemoryEventStore.cs:44-72 | every append, successful or not, keeps the invariant |
| EventModel.AppendGrowth | Luffy.EventStore.InMemory/InMemoryEventStore.cs:53-71 | a successful append of k events makes the stream and the global log exactly k longer and returns the stream's new length |
| EventModel.CommitAppendsBatch | Luffy.EventStore.InMemory/InMemoryEventStore.cs:53-66 | writing a batch to a registered stream satisfies `BatchAppended` |
| EventModel.AppendStamps | Luffy.EventStore.InMemory/InMemoryEventStore.cs:55-65 | `BatchAppended`: on success old contents stay as prefixes, and the i-th input sits at stream index (old length + i) and global index (old global length + i), with verbatim type, data and metadata, its stream id, and those two revisions |
| EventModel.AppendFrame | Luffy.EventStore.InMemory/InMemoryEventStore.cs:105-109 | whatever the outcome, the global log only grows at its end, no stream is removed, only the target can be added, and every other stream is unchanged |
| EventModel.NoStreamOnExisting | Luffy.EventStore.InMemory/InMemoryEventStore.cs:113-118 | NoStream on a registered stream fails with ExpectedNoStream and leaves the store unchanged |
| EventModel.StreamExistsOnAbsent | Luffy.EventStore.InMemory/InMemoryEventStore.cs:123-126 | StreamExists on an unregistered stream fails with ExpectedStreamExists, leaves the store unchanged and does not register the stream |
| EventModel.RevisionMismatch | Luffy.EventStore.InMemory/InMemoryEventStore.cs:50-88 | an explicit revision other than the current length fails with that revision and the length; no event is written, but an unseen stream is left registered and empty |
| EventModel.ExplicitRevisionSucceedsIff | Luffy.EventStore.InMemory/InMemoryEventStore.cs:74-88 | an explicit-revision append succeeds iff the revision equals the stream's current length (0 if unseen) |
| EventModel.NoExplicitRevisionFailsIff | Luffy.EventStore.InMemory/InMemoryEventStore.cs:76-82 | without an explicit revision an append fails iff NoStream meets a registered stream or StreamExists an unregistered one, and never with a revision error |
| EventModel.EmptyBatch | Luffy.EventStore.InMemory/InMemoryEventStore.cs:53-71 | an empty batch that passes the checks writes nothing, leaves the stream registered and returns its current length |
| EventModel.EmptyLogIffEmptyStreams | Luffy.EventStore.InMemory/InMemoryEventStore.cs:14-17 | in a well-formed store the global log is empty iff every registered stream is empty |
| EventModel.Scenario | Luffy.EventStore.InMemory/InMemoryEventStore.cs:44-88 | two events under NoStream give 2, one more at revision 2 gives 3, and one at revision 0 fails with expected 0 and actual 3, leaving the store as it was |

## Left out

- Event ids and creation times: the code fills `EventId` with a fresh `Guid` and `Created` with the current clock. Both are nondeterministic, so `RecordedEvent` has neither field.
- Concurrency: the model has one sequential caller. There is no locking and no concurrent dictionary.
- Integer width: revisions and counts are unbounded `nat`, not 64-bit. A store never holds enough events to overflow them.
- ReadStream: requires that the stream is registered. For an unregistered id the code uses the registry's indexer, and `EventsPerStreamDictionary` is not part of this model.
- ReadStream and ReadAll: the direction, start revision and count arguments are accepted and ignored, as in the code. No slicing is modelled.
- `Stream`, `EventsPerStreamDictionary` and `StreamRevision.ToStreamRevision` are not part of this model. They are modelled as a sequence, a map and the identity on `nat`.
- Exceptions become the `AppendError` variants of a result value. The `IEventStore` interface is not modelled.
- Lazy enumeration: the input batch is a finite sequence, read once in order.
- Commit and DoAppendToStream: the model writes a batch that passed the checks all at once. In the code, a null event in the batch (its `Data` read at InMemoryEventStore.cs:59 throws) or an enumerator that throws part-way leaves the events before it already added to the stream and the global log, and the call throws; the model has no null events and no failing enumeration, so it does not capture a partly written batch.
- ReadStream and ReadAll (aliasing): the code returns the store's own `Stream` objects (InMemoryEventStore.cs:36, 41), which later appends grow in place, so a caller holding an earlier result sees those appends. The model returns a sequence value fixed at the time of the call, a snapshot rather than a live view.
