/** The value-level model of the in-memory event store: the recorded events,
    the store's two pieces of state (the global log and the per-stream
    registry), the precondition checks and the append as functions of a
    store value, and the properties the append keeps. */
module EventModel {

  datatype Option<T> = None | Some(value: T)

  datatype Result<T, E> = Ok(value: T) | Err(error: E)

  /** The precondition a caller states about the stream it appends to. */
  datatype StreamState = Any | NoStream | StreamExists

  /** Accepted by the reads and ignored by them. */
  datatype ReadDirection = Forward | Backward

  type Bytes = seq<bv8>

  /** What a caller hands in: a type tag and two opaque payloads. */
  datatype EventData = EventData(eventType: string, data: Bytes, metadata: Bytes)

  /** An event as the store keeps it.  The identifier and the creation time
      that the store also stamps are not part of this model. */
  datatype RecordedEvent = RecordedEvent(
    eventStreamId: string,
    eventType: string,
    data: Bytes,
    metadata: Bytes,
    streamEventRevision: nat,
    globalEventRevision: nat)

  /** The three ways an append can be refused. */
  datatype AppendError =
    | ExpectedNoStream(streamId: string)
    | ExpectedStreamExists(streamId: string)
    | ExpectedStreamRevision(streamId: string, expected: nat, actual: nat)

  datatype AppendToStreamResponse = AppendToStreamResponse(nextExpectedStreamRevision: nat)

  /** The whole state of a store: the global log and the stream registry. */
  datatype Store = Store(all: seq<RecordedEvent>, streams: map<string, seq<RecordedEvent>>)

  const EmptyStore := Store([], map[])

  /** The events of a stream, empty when the stream is not registered. */
  function CurrentStream(s: Store, streamId: string): seq<RecordedEvent>
  {
    if streamId in s.streams then s.streams[streamId] else []
  }

  function StreamLength(s: Store, streamId: string): nat
  {
    |CurrentStream(s, streamId)|
  }

  /** The subsequence of a log that belongs to one stream, in log order. */
  function OfStream(log: seq<RecordedEvent>, streamId: string): seq<RecordedEvent>
  {
    if log == [] then []
    else
      var last := log[|log| - 1];
      OfStream(log[..|log| - 1], streamId) + (if last.eventStreamId == streamId then [last] else [])
  }

  /** Every event of a stream sits at the index equal to its stream revision
      and names that stream. */
  ghost predicate StreamWellFormed(streamId: string, events: seq<RecordedEvent>)
  {
    forall j :: 0 <= j < |events| ==>
      events[j].streamEventRevision == j && events[j].eventStreamId == streamId
  }

  /** The invariant of the store: global revisions are gap-free from 0, each
      stream's revisions are gap-free from 0, every logged event belongs to a
      registered stream, and the global log filtered by a stream id is that
      stream's sequence. */
  ghost predicate WellFormed(s: Store)
  {
    && (forall g :: 0 <= g < |s.all| ==> s.all[g].globalEventRevision == g)
    && (forall g :: 0 <= g < |s.all| ==> s.all[g].eventStreamId in s.streams)
    && (forall id :: id in s.streams ==> StreamWellFormed(id, s.streams[id]))
    && (forall id :: id in s.streams ==> OfStream(s.all, id) == s.streams[id])
  }

  /** The recorded event made from one input event. */
  function Record(streamId: string, e: EventData, streamRevision: nat, globalRevision: nat): (r: RecordedEvent)
    ensures CopiesInput(r, streamId, e)
    ensures r.streamEventRevision == streamRevision && r.globalEventRevision == globalRevision
  {
    RecordedEvent(streamId, e.eventType, e.data, e.metadata, streamRevision, globalRevision)
  }

  /** The recorded events a batch becomes when the stream already holds
      streamBase events and the global log globalBase events. */
  function Stamp(streamId: string, events: seq<EventData>, streamBase: nat, globalBase: nat): (r: seq<RecordedEvent>)
    ensures |r| == |events|
    decreases |events|
  {
    if events == [] then []
    else
      var n := |events| - 1;
      Stamp(streamId, events[..n], streamBase, globalBase) + [Record(streamId, events[n], streamBase + n, globalBase + n)]
  }

  /** The stream-state check.  It refuses NoStream on a registered stream and
      StreamExists on an unregistered one; otherwise it registers an unseen
      stream with an empty sequence. */
  function CheckStreamState(s: Store, streamId: string, state: StreamState): (r: (Store, Option<AppendError>))
    ensures r.1.None? ==> streamId in r.0.streams && r.0.all == s.all
    ensures r.1.Some? ==> r.0 == s
  {
    if streamId in s.streams then
      if state == NoStream then (s, Some(ExpectedNoStream(streamId))) else (s, None)
    else if state == StreamExists then (s, Some(ExpectedStreamExists(streamId)))
    else (Store(s.all, s.streams[streamId := []]), None)
  }

  /** The revision check.  Without an explicit revision it either returns
      at once (state Any) or compares the live count with itself, so it
      refuses exactly an explicit revision other than the stream's length. */
  function CheckStreamRevision(s: Store, streamId: string, state: StreamState, revision: Option<nat>): (r: Option<AppendError>)
    requires streamId in s.streams
    ensures r.Some? <==> revision.Some? && revision.value != |s.streams[streamId]|
    ensures r.Some? ==> r.value == ExpectedStreamRevision(streamId, revision.value, |s.streams[streamId]|)
  {
    if state == Any && revision.None? then None
    else
      var actual := |s.streams[streamId]|;
      var expected := if revision.Some? then revision.value else actual;
      if expected != actual then Some(ExpectedStreamRevision(streamId, expected, actual)) else None
  }

  /** The store after a batch is written to a registered stream and to the
      global log. */
  function Commit(s: Store, streamId: string, events: seq<EventData>): (t: Store)
    requires streamId in s.streams
    ensures |t.all| == |s.all| + |events|
    ensures t.streams.Keys == s.streams.Keys
    ensures |t.streams[streamId]| == |s.streams[streamId]| + |events|
    ensures forall other :: other in s.streams && other != streamId ==> t.streams[other] == s.streams[other]
  {
    var recorded := Stamp(streamId, events, |s.streams[streamId]|, |s.all|);
    Store(s.all + recorded, s.streams[streamId := s.streams[streamId] + recorded])
  }

  /** An append: the stream-state check, then the revision check, then the
      write.  The store value returned alongside an error is the state the
      store is left in. */
  function Append(s: Store, streamId: string, events: seq<EventData>, state: StreamState, revision: Option<nat>)
    : (r: (Store, Result<AppendToStreamResponse, AppendError>))
    ensures r.1.Ok? ==> r.1.value.nextExpectedStreamRevision == StreamLength(s, streamId) + |events|
    ensures r.1.Err? ==> r.0.all == s.all && r.0.streams.Keys <= s.streams.Keys + {streamId}
    ensures r.1.Err? ==> forall id :: id in r.0.streams ==> r.0.streams[id] == CurrentStream(s, id)
  {
    var (s1, stateError) := CheckStreamState(s, streamId, state);
    if stateError.Some? then (s1, Err(stateError.value))
    else
      var revisionError := CheckStreamRevision(s1, streamId, state, revision);
      if revisionError.Some? then (s1, Err(revisionError.value))
      else
        var s2 := Commit(s1, streamId, events);
        (s2, Ok(AppendToStreamResponse(|s2.streams[streamId]|)))
  }

  // ---------------------------------------------------------------------
  // Lemmas about stamping and filtering

  /** The i-th event of a batch gets stream revision streamBase + i and
      global revision globalBase + i, and copies its input. */
  lemma {:induction false} StampAt(streamId: string, events: seq<EventData>, streamBase: nat, globalBase: nat, i: nat)
    requires i < |events|
    ensures Stamp(streamId, events, streamBase, globalBase)[i] == Record(streamId, events[i], streamBase + i, globalBase + i)
  {
    var n := |events| - 1;
    if i < n {
      StampAt(streamId, events[..n], streamBase, globalBase, i);
    }
  }

  lemma {:induction false} OfStreamConcat(a: seq<RecordedEvent>, b: seq<RecordedEvent>, streamId: string)
    ensures OfStream(a + b, streamId) == OfStream(a, streamId) + OfStream(b, streamId)
    decreases |b|
  {
    if b == [] {
      assert a + b == a;
    } else {
      var n := |b| - 1;
      assert (a + b)[..|a + b| - 1] == a + b[..n];
      OfStreamConcat(a, b[..n], streamId);
    }
  }

  /** A stamped batch filtered by its own stream id is the whole batch, and
      filtered by any other id is empty. */
  lemma {:induction false} OfStreamStamp(streamId: string, other: string, events: seq<EventData>, streamBase: nat, globalBase: nat)
    ensures OfStream(Stamp(streamId, events, streamBase, globalBase), other)
         == if other == streamId then Stamp(streamId, events, streamBase, globalBase) else []
    decreases |events|
  {
    if events != [] {
      var n := |events| - 1;
      var front := Stamp(streamId, events[..n], streamBase, globalBase);
      var last := Record(streamId, events[n], streamBase + n, globalBase + n);
      OfStreamStamp(streamId, other, events[..n], streamBase, globalBase);
      OfStreamConcat(front, [last], other);
      assert [last][..0] == [];
    }
  }

  /** A log in which no event names a stream filters to nothing for it. */
  lemma {:induction false} OfStreamAbsent(log: seq<RecordedEvent>, streamId: string)
    requires forall g :: 0 <= g < |log| ==> log[g].eventStreamId != streamId
    ensures OfStream(log, streamId) == []
  {
    if log != [] {
      OfStreamAbsent(log[..|log| - 1], streamId);
    }
  }

  /** The stream of any logged event has at least that event. */
  lemma {:induction false} OfStreamNonEmpty(log: seq<RecordedEvent>, g: nat)
    requires g < |log|
    ensures OfStream(log, log[g].eventStreamId) != []
  {
    var id := log[g].eventStreamId;
    assert log == log[..g + 1] + log[g + 1..];
    OfStreamConcat(log[..g + 1], log[g + 1..], id);
    assert log[..g + 1][..g] == log[..g];
  }

  /** Writing an empty batch changes nothing. */
  lemma CommitNothing(s: Store, streamId: string)
    requires streamId in s.streams
    ensures Commit(s, streamId, []) == s
  {
    assert s.streams[streamId] + [] == s.streams[streamId];
    assert s.streams[streamId := s.streams[streamId]] == s.streams;
    assert s.all + [] == s.all;
  }

  /** Writing the first i + 1 events of a batch is writing the first i and
      then event i, stamped with the lengths reached so far. */
  lemma CommitStep(s: Store, streamId: string, events: seq<EventData>, i: nat)
    requires streamId in s.streams
    requires i < |events|
    ensures var c := Commit(s, streamId, events[..i]);
      var recorded := Record(streamId, events[i], |c.streams[streamId]|, |c.all|);
      Commit(s, streamId, events[..i + 1]) == Store(c.all + [recorded], c.streams[streamId := c.streams[streamId] + [recorded]])
  {
    var base := |s.streams[streamId]|;
    assert events[..i + 1][..i] == events[..i];
    var front := Stamp(streamId, events[..i], base, |s.all|);
    var recorded := Record(streamId, events[i], base + i, |s.all| + i);
    assert Stamp(streamId, events[..i + 1], base, |s.all|) == front + [recorded];
    assert s.all + (front + [recorded]) == (s.all + front) + [recorded];
    assert s.streams[streamId] + (front + [recorded]) == (s.streams[streamId] + front) + [recorded];
  }

  // ---------------------------------------------------------------------
  // The invariant is preserved

  lemma RegisterPreservesWellFormed(s: Store, streamId: string)
    requires WellFormed(s)
    requires streamId !in s.streams
    ensures WellFormed(Store(s.all, s.streams[streamId := []]))
  {
    OfStreamAbsent(s.all, streamId);
  }

  lemma CommitPreservesWellFormed(s: Store, streamId: string, events: seq<EventData>)
    requires WellFormed(s)
    requires streamId in s.streams
    ensures WellFormed(Commit(s, streamId, events))
  {
    var base := |s.streams[streamId]|;
    var recorded := Stamp(streamId, events, base, |s.all|);
    var t := Commit(s, streamId, events);
    forall g | 0 <= g < |t.all|
      ensures t.all[g].globalEventRevision == g && t.all[g].eventStreamId in t.streams
    {
      if g >= |s.all| {
        StampAt(streamId, events, base, |s.all|, g - |s.all|);
      }
    }
    forall j | 0 <= j < |t.streams[streamId]|
      ensures t.streams[streamId][j].streamEventRevision == j
      ensures t.streams[streamId][j].eventStreamId == streamId
    {
      if j >= base {
        StampAt(streamId, events, base, |s.all|, j - base);
      }
    }
    forall id | id in t.streams
      ensures OfStream(t.all, id) == t.streams[id]
    {
      OfStreamConcat(s.all, recorded, id);
      OfStreamStamp(streamId, id, events, base, |s.all|);
    }
  }

  /** Every append, whatever its outcome, leaves a well-formed store
      well-formed. */
  lemma AppendPreservesWellFormed(s: Store, streamId: string, events: seq<EventData>, state: StreamState, revision: Option<nat>)
    requires WellFormed(s)
    ensures WellFormed(Append(s, streamId, events, state, revision).0)
  {
    var (s1, stateError) := CheckStreamState(s, streamId, state);
    if streamId !in s.streams {
      RegisterPreservesWellFormed(s, streamId);
    }
    if stateError.None? {
      CommitPreservesWellFormed(s1, streamId, events);
    }
  }

  // ---------------------------------------------------------------------
  // What a successful append does

  /** A successful append of k events makes the stream and the global log
      exactly k longer, and reports the stream's new length. */
  lemma AppendGrowth(s: Store, streamId: string, events: seq<EventData>, state: StreamState, revision: Option<nat>)
    ensures var (t, r) := Append(s, streamId, events, state, revision);
      r.Ok? ==>
        && streamId in t.streams
        && |t.streams[streamId]| == StreamLength(s, streamId) + |events|
        && |t.all| == |s.all| + |events|
        && r.value.nextExpectedStreamRevision == |t.streams[streamId]|
  {
  }

  /** A recorded event carries its input's type tag and payloads verbatim
      and names the stream it was appended to. */
  ghost predicate CopiesInput(e: RecordedEvent, streamId: string, input: EventData)
  {
    e.eventStreamId == streamId && e.eventType == input.eventType
    && e.data == input.data && e.metadata == input.metadata
  }

  /** t is the state after a batch was written to a stream that held
      `stream` while the global log held `all`: both keep their old contents
      as prefixes and grow by the batch, and the i-th input event sits at
      stream index (old length + i) and global index (old global length + i),
      copied verbatim and stamped with those two revisions. */
  ghost predicate BatchAppended(all: seq<RecordedEvent>, stream: seq<RecordedEvent>, t: Store, streamId: string,
                                events: seq<EventData>)
  {
    && streamId in t.streams
    && |t.streams[streamId]| == |stream| + |events|
    && |t.all| == |all| + |events|
    && t.all[..|all|] == all
    && t.streams[streamId][..|stream|] == stream
    && forall i :: 0 <= i < |events| ==>
         && t.all[|all| + i] == t.streams[streamId][|stream| + i]
         && CopiesInput(t.all[|all| + i], streamId, events[i])
         && t.all[|all| + i].streamEventRevision == |stream| + i
         && t.all[|all| + i].globalEventRevision == |all| + i
  }

  lemma CommitAppendsBatch(s: Store, streamId: string, events: seq<EventData>)
    requires streamId in s.streams
    ensures BatchAppended(s.all, s.streams[streamId], Commit(s, streamId, events), streamId, events)
  {
    var t := Commit(s, streamId, events);
    var base := |s.streams[streamId]|;
    var recorded := Stamp(streamId, events, base, |s.all|);
    assert t.all[..|s.all|] == s.all;
    assert t.streams[streamId][..base] == s.streams[streamId];
    forall i | 0 <= i < |events|
      ensures t.all[|s.all| + i] == t.streams[streamId][base + i]
      ensures CopiesInput(t.all[|s.all| + i], streamId, events[i])
      ensures t.all[|s.all| + i].streamEventRevision == base + i
      ensures t.all[|s.all| + i].globalEventRevision == |s.all| + i
    {
      StampAt(streamId, events, base, |s.all|, i);
      assert t.all[|s.all| + i] == recorded[i];
      assert t.streams[streamId][base + i] == recorded[i];
    }
  }

  /** A successful append writes the batch in input order, stamped from the
      prior lengths of the stream and of the global log. */
  lemma AppendStamps(s: Store, streamId: string, events: seq<EventData>, state: StreamState, revision: Option<nat>)
    ensures var (t, r) := Append(s, streamId, events, state, revision);
      r.Ok? ==> BatchAppended(s.all, CurrentStream(s, streamId), t, streamId, events)
  {
    var (s1, stateError) := CheckStreamState(s, streamId, state);
    if stateError.None? && CheckStreamRevision(s1, streamId, state, revision).None? {
      assert s1.streams[streamId] == CurrentStream(s, streamId);
      assert Append(s, streamId, events, state, revision).0 == Commit(s1, streamId, events);
      CommitAppendsBatch(s1, streamId, events);
    }
  }

  /** Whatever the outcome, the global log only grows at its end, and every
      stream other than the target is exactly as it was; no stream is ever
      removed. */
  lemma AppendFrame(s: Store, streamId: string, events: seq<EventData>, state: StreamState, revision: Option<nat>)
    ensures var t := Append(s, streamId, events, state, revision).0;
      && |s.all| <= |t.all| && t.all[..|s.all|] == s.all
      && s.streams.Keys <= t.streams.Keys
      && t.streams.Keys <= s.streams.Keys + {streamId}
      && forall other :: other in s.streams && other != streamId ==> t.streams[other] == s.streams[other]
  {
  }

  // ---------------------------------------------------------------------
  // The failure modes

  /** NoStream on a registered stream is refused and changes nothing. */
  lemma NoStreamOnExisting(s: Store, streamId: string, events: seq<EventData>)
    requires streamId in s.streams
    ensures Append(s, streamId, events, NoStream, None) == (s, Err(ExpectedNoStream(streamId)))
  {
  }

  /** StreamExists on an unregistered stream is refused, changes nothing and
      does not register the stream. */
  lemma StreamExistsOnAbsent(s: Store, streamId: string, events: seq<EventData>)
    requires streamId !in s.streams
    ensures Append(s, streamId, events, StreamExists, None) == (s, Err(ExpectedStreamExists(streamId)))
  {
  }

  /** An explicit revision other than the stream's current length is refused
      with that revision and the length; no event is written, but an unseen
      stream is left registered and empty. */
  lemma RevisionMismatch(s: Store, streamId: string, events: seq<EventData>, expected: nat)
    requires expected != StreamLength(s, streamId)
    ensures Append(s, streamId, events, Any, Some(expected))
         == (Store(s.all, s.streams[streamId := CurrentStream(s, streamId)]),
             Err(ExpectedStreamRevision(streamId, expected, StreamLength(s, streamId))))
  {
    if streamId in s.streams {
      assert s.streams[streamId := CurrentStream(s, streamId)] == s.streams;
    }
  }

  /** An append with an explicit revision succeeds exactly when the revision
      is the stream's current length (0 for an unseen stream). */
  lemma ExplicitRevisionSucceedsIff(s: Store, streamId: string, events: seq<EventData>, expected: nat)
    ensures Append(s, streamId, events, Any, Some(expected)).1.Ok? <==> expected == StreamLength(s, streamId)
  {
  }

  /** Without an explicit revision the revision check never refuses: the
      append fails exactly on the two stream-state clashes. */
  lemma NoExplicitRevisionFailsIff(s: Store, streamId: string, events: seq<EventData>, state: StreamState)
    ensures var r := Append(s, streamId, events, state, None).1;
      && (r.Err? <==> (state == NoStream && streamId in s.streams) || (state == StreamExists && streamId !in s.streams))
      && (r.Err? ==> !r.error.ExpectedStreamRevision?)
  {
  }

  /** An empty batch that passes the checks writes nothing, leaves the target
      stream registered and reports its current length (0 for an unseen
      stream). */
  lemma EmptyBatch(s: Store, streamId: string, state: StreamState, revision: Option<nat>)
    ensures var (t, r) := Append(s, streamId, [], state, revision);
      r.Ok? ==>
        && t == Store(s.all, s.streams[streamId := CurrentStream(s, streamId)])
        && r.value.nextExpectedStreamRevision == StreamLength(s, streamId)
  {
    var (t, r) := Append(s, streamId, [], state, revision);
    if r.Ok? {
      assert Stamp(streamId, [], StreamLength(s, streamId), |s.all|) == [];
      assert CurrentStream(s, streamId) + [] == CurrentStream(s, streamId);
    }
  }

  /** In a well-formed store the global log is empty exactly when every
      registered stream is empty. */
  lemma EmptyLogIffEmptyStreams(s: Store)
    requires WellFormed(s)
    ensures s.all == [] <==> forall id :: id in s.streams ==> s.streams[id] == []
  {
    if s.all != [] {
      OfStreamNonEmpty(s.all, 0);
    }
  }

  /** Two events to a new stream under NoStream, one more at revision 2, then
      one at the stale revision 0, which is refused with actual 3 and leaves
      the three events in place. */
  lemma Scenario(e1: EventData, e2: EventData, e3: EventData, e4: EventData)
    ensures var (s1, r1) := Append(EmptyStore, "A", [e1, e2], NoStream, None);
      var (s2, r2) := Append(s1, "A", [e3], Any, Some(2));
      var (s3, r3) := Append(s2, "A", [e4], Any, Some(0));
      && r1 == Ok(AppendToStreamResponse(2))
      && r2 == Ok(AppendToStreamResponse(3))
      && r3 == Err(ExpectedStreamRevision("A", 0, 3))
      && |s3.streams["A"]| == 3 && s3 == s2
  {
  }
}
