/** The Bridge's outbound streams: the session list and one detail stream per session
    (apps/bridge/src/runtime/mod.rs, `StreamState` and the code that fills and drains it). One
    method is one section under the state lock; the snapshot is fetched between two of them. */
module Streams {
  import opened Wrappers

  // ---------------------------------------------------------------------------
  // Data
  // ---------------------------------------------------------------------------

  datatype Agent = CodexDesktop | ZcodeDesktop

  datatype Slot = Slot(agent: Agent, native: string)

  /** `summary` marks SessionSummaryChanged, the only event a list stream carries. */
  datatype Event = Event(tag: nat, summary: bool)

  datatype Payload = Snapshot | EventBatch(event: Event)

  datatype Frame = Frame(streamId: string, epoch: nat, sequence: nat, payload: Payload)

  datatype Stream = Stream(id: string, epoch: nat, next: nat, buffering: bool, buffer: seq<Event>)

  /** Everything behind the state lock, and the frames handed to the transport so far. */
  datatype Core = Core(epochCounter: nat, list: Option<Stream>, sessions: map<Slot, Stream>, sent: seq<Frame>)

  // ---------------------------------------------------------------------------
  // One stream
  // ---------------------------------------------------------------------------

  /** What a section does to one stream: its new state and the payloads it sends, numbered from
      the old state's next sequence. */
  datatype Move = Move(stream: Stream, payloads: seq<Payload>)

  function Frames(s: Stream, payloads: seq<Payload>): (frames: seq<Frame>)
    ensures |frames| == |payloads|
    ensures forall i :: 0 <= i < |frames| ==> frames[i] == Frame(s.id, s.epoch, s.next + i, payloads[i])
  {
    if payloads == [] then []
    else
      var last := |payloads| - 1;
      Frames(s, payloads[..last]) + [Frame(s.id, s.epoch, s.next + last, payloads[last])]
  }

  function Advance(s: Stream, payloads: seq<Payload>): Move {
    Move(s.(next := s.next + |payloads|), payloads)
  }

  function Begun(previous: Option<Stream>, epoch: nat, upstreamId: Option<string>, name: string): Stream {
    var id := if upstreamId.Some? then upstreamId.value
              else if previous.Some? && previous.value.id != "" then previous.value.id
              else name;
    Stream(id, epoch, 1, true, [])
  }

  function Batches(events: seq<Event>): (payloads: seq<Payload>)
    ensures |payloads| == |events|
    ensures forall i :: 0 <= i < |events| ==> payloads[i] == EventBatch(events[i])
  {
    if events == [] then []
    else Batches(events[..|events| - 1]) + [EventBatch(events[|events| - 1])]
  }

  /** A list stream flushes summary events only. */
  function Summaries(events: seq<Event>): seq<Event> {
    if events == [] then []
    else
      var e := events[|events| - 1];
      Summaries(events[..|events| - 1]) + if e.summary then [e] else []
  }

  function Finished(s: Stream, flushed: seq<Event>): Move {
    Advance(s.(buffering := false, buffer := []), [Snapshot] + Batches(flushed))
  }

  function Dispatched(s: Stream, e: Event): Move {
    if s.buffering then Move(s.(buffer := s.buffer + [e]), []) else Advance(s, [EventBatch(e)])
  }

  // ---------------------------------------------------------------------------
  // The locked sections
  // ---------------------------------------------------------------------------

  function ListDo(c: Core, m: Move): Core
    requires c.list.Some?
  {
    c.(list := Some(m.stream), sent := c.sent + Frames(c.list.value, m.payloads))
  }

  function SessionDo(c: Core, slot: Slot, m: Move): Core
    requires slot in c.sessions
  {
    c.(sessions := c.sessions[slot := m.stream], sent := c.sent + Frames(c.sessions[slot], m.payloads))
  }

  function BeginList(c: Core, upstreamId: Option<string>): Core {
    var epoch := c.epochCounter + 1;
    c.(epochCounter := epoch, list := Some(Begun(c.list, epoch, upstreamId, "list")))
  }

  function FinishList(c: Core): Core {
    if c.list.None? then c else ListDo(c, Finished(c.list.value, Summaries(c.list.value.buffer)))
  }

  function Session(c: Core, slot: Slot): Option<Stream> {
    if slot in c.sessions then Some(c.sessions[slot]) else None
  }

  function SessionName(slot: Slot): string {
    "session:" + (match slot.agent case CodexDesktop => "codex-desktop" case ZcodeDesktop => "zcode-desktop") + ":" + slot.native
  }

  function BeginSession(c: Core, slot: Slot, upstreamId: Option<string>): Core {
    var epoch := c.epochCounter + 1;
    c.(epochCounter := epoch,
       sessions := c.sessions[slot := Begun(Session(c, slot), epoch, upstreamId, SessionName(slot))])
  }

  /** `fetched` says whether the snapshot could be obtained. */
  function FinishSession(c: Core, slot: Slot, fetched: bool): Core {
    if slot !in c.sessions then c
    else if fetched then SessionDo(c, slot, Finished(c.sessions[slot], c.sessions[slot].buffer))
    else SessionDo(c, slot, Move(c.sessions[slot].(buffering := false), []))
  }

  function DispatchSession(c: Core, slot: Slot, e: Event): Core {
    if slot !in c.sessions then c else SessionDo(c, slot, Dispatched(c.sessions[slot], e))
  }

  function DispatchList(c: Core, e: Event): Core {
    if !e.summary || c.list.None? then c else ListDo(c, Dispatched(c.list.value, e))
  }

  function Dispatch(c: Core, slot: Slot, e: Event): Core {
    DispatchList(DispatchSession(c, slot, e), e)
  }

  /** `id` and `epoch` were read before the list was fetched. */
  function RefreshList(c: Core, id: string, epoch: nat): Core {
    if c.list.Some? && c.list.value.id == id && c.list.value.epoch == epoch && !c.list.value.buffering
    then ListDo(c, Advance(c.list.value, [Snapshot]))
    else c
  }

  function ObserveSession(c: Core, slot: Slot, changed: bool): Core {
    if slot in c.sessions && !c.sessions[slot].buffering && changed
    then SessionDo(c, slot, Advance(c.sessions[slot], [Snapshot]))
    else c
  }

  function Unsubscribe(c: Core, id: string): Core {
    if c.list.Some? && c.list.value.id == id then c.(list := None)
    else c.(sessions := map slot | slot in c.sessions && c.sessions[slot].id != id :: c.sessions[slot])
  }

  // ---------------------------------------------------------------------------
  // The runtime state
  // ---------------------------------------------------------------------------

  class RuntimeState {
    var epochCounter: nat
    var listStream: Option<Stream>
    var sessionStreams: map<Slot, Stream>
    var sent: seq<Frame>

    ghost function Value(): Core
      reads this
    {
      Core(epochCounter, listStream, sessionStreams, sent)
    }

    constructor ()
      ensures Value() == Core(0, None, map[], [])
    {
      epochCounter, listStream, sessionStreams, sent := 0, None, map[], [];
    }

    method Send(s: Stream, payload: Payload) returns (next: Stream)
      modifies this`sent
      ensures next == Advance(s, [payload]).stream
      ensures sent == old(sent) + Frames(s, [payload])
    {
      sent := sent + [Frame(s.id, s.epoch, s.next, payload)];
      next := s.(next := s.next + 1);
    }

    method EstablishListBegin(upstreamId: Option<string>) returns (epoch: nat)
      modifies this
      ensures Value() == BeginList(old(Value()), upstreamId) && epoch == epochCounter
    {
      epochCounter := epochCounter + 1;
      epoch := epochCounter;
      var stream := if listStream.Some? then listStream.value else Stream("list", epoch, 1, false, []);
      if upstreamId.Some? {
        stream := stream.(id := upstreamId.value);
      } else if stream.id == "" {
        stream := stream.(id := "list");
      }
      listStream := Some(stream.(epoch := epoch, next := 1, buffering := true, buffer := []));
    }

    method EstablishListFinish()
      modifies this
      ensures Value() == FinishList(old(Value()))
    {
      if listStream.None? {
        return;
      }
      ghost var before := listStream.value;
      var buffer := listStream.value.buffer;
      ghost var open := before.(buffering := false, buffer := []);
      var stream := Send(listStream.value.(buffering := false, buffer := []), Snapshot);
      var i: nat := 0;
      while i < |buffer|
        invariant i <= |buffer|
        invariant epochCounter == old(epochCounter) && sessionStreams == old(sessionStreams)
        invariant Flushed(open, old(sent), Summaries(buffer[..i]), stream, sent)
      {
        assert buffer[..i + 1][..i] == buffer[..i];
        FlushedNext(open, old(sent), Summaries(buffer[..i]), stream, sent, buffer[i]);
        if buffer[i].summary {
          stream := Send(stream, EventBatch(buffer[i]));
        }
        i := i + 1;
      }
      assert buffer[..i] == buffer;
      FramesIgnoreBuffer(before, open, [Snapshot] + Batches(Summaries(buffer)));
      listStream := Some(stream);
    }

    method EstablishSessionBegin(slot: Slot, upstreamId: Option<string>) returns (epoch: nat)
      modifies this
      ensures Value() == BeginSession(old(Value()), slot, upstreamId) && epoch == epochCounter
    {
      epochCounter := epochCounter + 1;
      epoch := epochCounter;
      var name := SessionName(slot);
      var stream := if slot in sessionStreams then sessionStreams[slot] else Stream(name, epoch, 1, false, []);
      if upstreamId.Some? {
        stream := stream.(id := upstreamId.value);
      } else if stream.id == "" {
        stream := stream.(id := name);
      }
      sessionStreams := sessionStreams[slot := stream.(epoch := epoch, next := 1, buffering := true, buffer := [])];
    }

    method EstablishSessionFinish(slot: Slot, fetched: bool)
      modifies this
      ensures Value() == FinishSession(old(Value()), slot, fetched)
    {
      if slot !in sessionStreams {
        return;
      }
      ghost var before := sessionStreams[slot];
      if !fetched {
        sessionStreams := sessionStreams[slot := sessionStreams[slot].(buffering := false)];
        return;
      }
      var buffer := sessionStreams[slot].buffer;
      ghost var open := before.(buffering := false, buffer := []);
      var stream := Send(sessionStreams[slot].(buffering := false, buffer := []), Snapshot);
      var i: nat := 0;
      while i < |buffer|
        invariant i <= |buffer|
        invariant epochCounter == old(epochCounter) && listStream == old(listStream) && sessionStreams == old(sessionStreams)
        invariant Flushed(open, old(sent), buffer[..i], stream, sent)
      {
        assert buffer[..i + 1] == buffer[..i] + [buffer[i]];
        FlushedNext(open, old(sent), buffer[..i], stream, sent, buffer[i]);
        stream := Send(stream, EventBatch(buffer[i]));
        i := i + 1;
      }
      assert buffer[..i] == buffer;
      FramesIgnoreBuffer(before, open, [Snapshot] + Batches(buffer));
      sessionStreams := sessionStreams[slot := stream];
    }

    method DispatchDomainEvent(slot: Slot, e: Event)
      modifies this
      ensures Value() == Dispatch(old(Value()), slot, e)
    {
      if slot in sessionStreams {
        var stream := sessionStreams[slot];
        if stream.buffering {
          stream := stream.(buffer := stream.buffer + [e]);
        } else {
          stream := Send(stream, EventBatch(e));
        }
        sessionStreams := sessionStreams[slot := stream];
      }
      if e.summary && listStream.Some? {
        var stream := listStream.value;
        if stream.buffering {
          stream := stream.(buffer := stream.buffer + [e]);
        } else {
          stream := Send(stream, EventBatch(e));
        }
        listStream := Some(stream);
      }
    }

    method RefreshListSummary(id: string, epoch: nat)
      modifies this
      ensures Value() == RefreshList(old(Value()), id, epoch)
    {
      if listStream.Some? {
        var stream := listStream.value;
        if stream.id == id && stream.epoch == epoch && !stream.buffering {
          stream := Send(stream, Snapshot);
          listStream := Some(stream);
        }
      }
    }

    method Observe(slot: Slot, changed: bool)
      modifies this
      ensures Value() == ObserveSession(old(Value()), slot, changed)
    {
      if slot in sessionStreams && !sessionStreams[slot].buffering && changed {
        var stream := Send(sessionStreams[slot], Snapshot);
        sessionStreams := sessionStreams[slot := stream];
      }
    }

    method HandleUnsubscribe(id: string)
      modifies this
      ensures Value() == Unsubscribe(old(Value()), id)
    {
      if listStream.Some? && listStream.value.id == id {
        listStream := None;
        return;
      }
      sessionStreams := map slot | slot in sessionStreams && sessionStreams[slot].id != id :: sessionStreams[slot];
    }
  }

  // ---------------------------------------------------------------------------
  // The flush loop
  // ---------------------------------------------------------------------------

  /** After the snapshot and `events` were sent on `open`. */
  ghost predicate Flushed(open: Stream, sentBefore: seq<Frame>, events: seq<Event>, stream: Stream, sent: seq<Frame>) {
    var payloads := [Snapshot] + Batches(events);
    stream == Advance(open, payloads).stream && sent == sentBefore + Frames(open, payloads)
  }

  lemma {:induction false} FlushedNext(open: Stream, sentBefore: seq<Frame>, events: seq<Event>,
                                       stream: Stream, sent: seq<Frame>, e: Event)
    requires Flushed(open, sentBefore, events, stream, sent)
    ensures Flushed(open, sentBefore, events + [e], Advance(stream, [EventBatch(e)]).stream,
                    sent + Frames(stream, [EventBatch(e)]))
  {
    var payloads := [Snapshot] + Batches(events);
    assert [Snapshot] + Batches(events + [e]) == payloads + [EventBatch(e)];
    FramesAppend(open, payloads, [EventBatch(e)]);
  }

  lemma {:induction false} FramesAppend(s: Stream, a: seq<Payload>, b: seq<Payload>)
    ensures Frames(s, a + b) == Frames(s, a) + Frames(Advance(s, a).stream, b)
  {
  }

  lemma {:induction false} FramesIgnoreBuffer(s: Stream, t: Stream, payloads: seq<Payload>)
    requires s.id == t.id && s.epoch == t.epoch && s.next == t.next
    ensures Frames(s, payloads) == Frames(t, payloads)
  {
  }
}
