/** The in-memory event store as an object whose two fields are updated in
    place by the append.  The append methods are proved to move the store
    exactly as the value-level model in EventModel says. */
module InMemory {
  import opened EventModel

  class InMemoryEventStore {
    /** The global log, in commit order. */
    var allEvents: seq<RecordedEvent>
    /** The stream registry: each registered stream id with its events. */
    var eventsPerStream: map<string, seq<RecordedEvent>>

    /** The store's state as a value. */
    function Snapshot(): Store
      reads this
    {
      Store(allEvents, eventsPerStream)
    }

    ghost predicate Valid()
      reads this
    {
      WellFormed(Snapshot())
    }

    constructor ()
      ensures Valid()
      ensures allEvents == [] && eventsPerStream == map[]
    {
      allEvents := [];
      eventsPerStream := map[];
    }

    /** The store is empty exactly when no event was ever recorded, that is,
        when every registered stream is empty. */
    function IsEmpty(): (empty: bool)
      reads this
      requires Valid()
      ensures empty <==> allEvents == []
      ensures empty <==> forall id :: id in eventsPerStream ==> eventsPerStream[id] == []
    {
      EmptyLogIffEmptyStreams(Snapshot());
      allEvents == []
    }

    /** The whole global log, whatever the direction and count asked for;
        the i-th event has global revision i. */
    function ReadAll(direction: ReadDirection, howMany: nat): (events: seq<RecordedEvent>)
      reads this
      requires Valid()
      ensures events == allEvents
      ensures forall g :: 0 <= g < |events| ==> events[g].globalEventRevision == g
    {
      allEvents
    }

    /** The whole of a registered stream, whatever the direction, start
        revision and count asked for: the global log's events of that
        stream, in order, the j-th with stream revision j. */
    function ReadStream(direction: ReadDirection, streamId: string, fromStreamRevision: nat, howMany: nat)
      : (events: seq<RecordedEvent>)
      reads this
      requires Valid()
      requires streamId in eventsPerStream
      ensures events == eventsPerStream[streamId]
      ensures events == OfStream(allEvents, streamId)
      ensures forall j :: 0 <= j < |events| ==>
        events[j].streamEventRevision == j && events[j].eventStreamId == streamId
    {
      eventsPerStream[streamId]
    }

    /** The registered stream's events; in a well-formed store, the global
        log's events of that stream in order. */
    function GetStream(streamId: string): (events: seq<RecordedEvent>)
      reads this
      requires streamId in eventsPerStream
      ensures |events| == |eventsPerStream[streamId]|
      ensures Valid() ==> events == OfStream(allEvents, streamId)
    {
      eventsPerStream[streamId]
    }

    /** The global revision the next recorded event gets: the length of the
        global log, one past the revision of every logged event. */
    function NextGlobalEventRevision(): (revision: nat)
      reads this
      ensures revision == |allEvents|
      ensures Valid() ==> forall g :: 0 <= g < |allEvents| ==> allEvents[g].globalEventRevision < revision
    {
      |allEvents|
    }

    /** The stream revision the next event of a registered stream gets: the
        stream's length, one past the revision of every event in it. */
    function NextStreamEventRevision(streamId: string): (revision: nat)
      reads this
      requires streamId in eventsPerStream
      ensures revision == |eventsPerStream[streamId]|
      ensures Valid() ==> forall j :: 0 <= j < |eventsPerStream[streamId]| ==>
        eventsPerStream[streamId][j].streamEventRevision < revision
    {
      |GetStream(streamId)|
    }

    /** Writes one recorded event to its stream and to the global log. */
    method AppendRecordedEvent(streamId: string, recordedEvent: RecordedEvent)
      requires streamId in eventsPerStream
      modifies this
      ensures allEvents == old(allEvents) + [recordedEvent]
      ensures eventsPerStream == old(eventsPerStream)[streamId := old(eventsPerStream)[streamId] + [recordedEvent]]
    {
      eventsPerStream := eventsPerStream[streamId := eventsPerStream[streamId] + [recordedEvent]];
      allEvents := allEvents + [recordedEvent];
    }

    /** The stream-state check: refuses NoStream on a registered stream and
        StreamExists on an unregistered one, and otherwise registers an
        unseen stream with no events. */
    method EnsureStreamState(streamId: string, expectedStreamState: StreamState) returns (error: Option<AppendError>)
      modifies this
      ensures (Snapshot(), error) == CheckStreamState(old(Snapshot()), streamId, expectedStreamState)
      ensures error.None? ==> streamId in eventsPerStream
    {
      if streamId in eventsPerStream {
        if expectedStreamState == NoStream {
          return Some(ExpectedNoStream(streamId));
        }
        return None;
      }
      if expectedStreamState == StreamExists {
        return Some(ExpectedStreamExists(streamId));
      }
      eventsPerStream := eventsPerStream[streamId := []];
      error := None;
    }

    /** The revision check on a registered stream: it refuses exactly an
        explicit revision other than the stream's length, reporting both. */
    method EnsureStreamRevision(streamId: string, expectedStreamState: StreamState, expectedStreamRevision: Option<nat>)
      returns (error: Option<AppendError>)
      requires streamId in eventsPerStream
      ensures error == CheckStreamRevision(Snapshot(), streamId, expectedStreamState, expectedStreamRevision)
      ensures error.Some? <==> expectedStreamRevision.Some? && expectedStreamRevision.value != |eventsPerStream[streamId]|
      ensures error.Some? ==>
        error.value == ExpectedStreamRevision(streamId, expectedStreamRevision.value, |eventsPerStream[streamId]|)
    {
      if expectedStreamState == Any && expectedStreamRevision.None? {
        return None;
      }
      var expected := if expectedStreamRevision.Some? then expectedStreamRevision.value else NextStreamEventRevision(streamId);
      var actual := NextStreamEventRevision(streamId);
      if expected != actual {
        return Some(ExpectedStreamRevision(streamId, expected, actual));
      }
      return None;
    }

    /** The append: both checks, then each event in input order, stamped with
        the current stream and global lengths and written to both. */
    method DoAppendToStream(streamId: string, events: seq<EventData>, expectedStreamState: StreamState,
                            expectedStreamRevision: Option<nat>)
      returns (result: Result<AppendToStreamResponse, AppendError>)
      requires Valid()
      modifies this
      ensures Valid()
      ensures (Snapshot(), result) == Append(old(Snapshot()), streamId, events, expectedStreamState, expectedStreamRevision)
    {
      ghost var before := Snapshot();
      AppendPreservesWellFormed(before, streamId, events, expectedStreamState, expectedStreamRevision);
      var stateError := EnsureStreamState(streamId, expectedStreamState);
      if stateError.Some? {
        return Err(stateError.value);
      }
      var revisionError := EnsureStreamRevision(streamId, expectedStreamState, expectedStreamRevision);
      if revisionError.Some? {
        return Err(revisionError.value);
      }
      ghost var registered := Snapshot();
      CommitNothing(registered, streamId);
      assert events[..0] == [];
      for i := 0 to |events|
        invariant streamId in eventsPerStream
        invariant Snapshot() == Commit(registered, streamId, events[..i])
      {
        var e := events[i];
        CommitStep(registered, streamId, events, i);
        AppendRecordedEvent(streamId, RecordedEvent(streamId, e.eventType, e.data, e.metadata,
                                                    NextStreamEventRevision(streamId), NextGlobalEventRevision()));
      }
      assert events[..|events|] == events;
      result := Ok(AppendToStreamResponse(|GetStream(streamId)|));
    }

    /** Append with an explicit expected revision (and no stream-state
        precondition). */
    method AppendToStreamAtRevision(expectedStreamRevision: nat, streamId: string, events: seq<EventData>)
      returns (result: Result<AppendToStreamResponse, AppendError>)
      requires Valid()
      modifies this
      ensures Valid()
      ensures (Snapshot(), result) == Append(old(Snapshot()), streamId, events, Any, Some(expectedStreamRevision))
      ensures result.Ok? <==> expectedStreamRevision == StreamLength(old(Snapshot()), streamId)
    {
      ExplicitRevisionSucceedsIff(Snapshot(), streamId, events, expectedStreamRevision);
      result := DoAppendToStream(streamId, events, Any, Some(expectedStreamRevision));
    }

    /** Append with an expected stream state (and no explicit revision). */
    method AppendToStreamWithState(expectedStreamState: StreamState, streamId: string, events: seq<EventData>)
      returns (result: Result<AppendToStreamResponse, AppendError>)
      requires Valid()
      modifies this
      ensures Valid()
      ensures (Snapshot(), result) == Append(old(Snapshot()), streamId, events, expectedStreamState, None)
      ensures result.Err? <==>
        || (expectedStreamState == NoStream && streamId in old(eventsPerStream))
        || (expectedStreamState == StreamExists && streamId !in old(eventsPerStream))
    {
      NoExplicitRevisionFailsIff(Snapshot(), streamId, events, expectedStreamState);
      result := DoAppendToStream(streamId, events, expectedStreamState, None);
    }
  }
}
