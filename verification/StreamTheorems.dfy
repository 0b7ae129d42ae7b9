/** What the outbound streams guarantee over every interleaving of establishments, dispatches,
    refreshes, observations and unsubscribes. */
module StreamTheorems {
  import opened Wrappers
  import opened Streams

  // ---------------------------------------------------------------------------
  // Runs
  // ---------------------------------------------------------------------------

  datatype Action =
    | ABeginList(upstreamId: Option<string>)
    | AFinishList
    | ABeginSession(slot: Slot, upstreamId: Option<string>)
    | AFinishSession(slot: Slot, fetched: bool)
    | ADispatch(slot: Slot, event: Event)
    | ARefreshList(id: string, epoch: nat)
    | AObserve(slot: Slot, changed: bool)
    | AUnsubscribe(id: string)

  /** What happened to one epoch: the events dispatched to its stream, whether its snapshot could
      not be fetched, whether an event went out while it should have been held back, and the stream id
      it was to have. */
  datatype Trace = Trace(isList: bool, hist: seq<Event>, failed: bool, tainted: bool, id: string)

  datatype World = World(core: Core, traces: map<nat, Trace>)

  const START := World(Core(0, None, map[], []), map[])

  function TraceOf(w: World, epoch: nat): Trace {
    if epoch in w.traces then w.traces[epoch] else Trace(false, [], false, false, "")
  }

  /** An event dispatched now would overtake the stream's snapshot or its buffered events. */
  predicate Overtakes(s: Stream) {
    !s.buffering && (s.buffer != [] || s.next == 1)
  }

  function TraceDispatch(h: Trace, s: Stream, e: Event): Trace {
    h.(hist := h.hist + [e], tainted := h.tainted || Overtakes(s))
  }

  /** The id an establishment asks for: the Relay's, else the one the stream has, else the local name. */
  function WantedId(upstreamId: Option<string>, previous: Option<Stream>, name: string): string {
    match upstreamId
    case Some(id) => id
    case None => if previous.None? || previous.value.id == "" then name else previous.value.id
  }

  function Begin(w: World, core: Core, isList: bool, id: string): World {
    World(core, w.traces[core.epochCounter := Trace(isList, [], false, false, id)])
  }

  function OnList(w: World, m: Move, h: Trace): World
    requires w.core.list.Some?
  {
    World(ListDo(w.core, m), w.traces[w.core.list.value.epoch := h])
  }

  function OnSession(w: World, slot: Slot, m: Move, h: Trace): World
    requires slot in w.core.sessions
  {
    World(SessionDo(w.core, slot, m), w.traces[w.core.sessions[slot].epoch := h])
  }

  function ListTrace(w: World): Trace
    requires w.core.list.Some?
  {
    TraceOf(w, w.core.list.value.epoch)
  }

  function SessionTrace(w: World, slot: Slot): Trace
    requires slot in w.core.sessions
  {
    TraceOf(w, w.core.sessions[slot].epoch)
  }

  function SessionDispatched(w: World, slot: Slot, e: Event): World {
    World(DispatchSession(w.core, slot, e),
          if slot !in w.core.sessions then w.traces
          else w.traces[w.core.sessions[slot].epoch := TraceDispatch(SessionTrace(w, slot), w.core.sessions[slot], e)])
  }

  function ListDispatched(w: World, e: Event): World {
    World(DispatchList(w.core, e),
          if !e.summary || w.core.list.None? then w.traces
          else w.traces[w.core.list.value.epoch := TraceDispatch(ListTrace(w), w.core.list.value, e)])
  }

  function Step(w: World, a: Action): World {
    match a
    case ABeginList(id) => Begin(w, BeginList(w.core, id), true, WantedId(id, w.core.list, "list"))
    case AFinishList => w.(core := FinishList(w.core))
    case ABeginSession(slot, id) =>
      Begin(w, BeginSession(w.core, slot, id), false, WantedId(id, Session(w.core, slot), SessionName(slot)))
    case AFinishSession(slot, fetched) =>
      World(FinishSession(w.core, slot, fetched),
            if slot in w.core.sessions && !fetched
            then w.traces[w.core.sessions[slot].epoch := SessionTrace(w, slot).(failed := true)]
            else w.traces)
    case ADispatch(slot, e) => ListDispatched(SessionDispatched(w, slot, e), e)
    case ARefreshList(id, epoch) => w.(core := RefreshList(w.core, id, epoch))
    case AObserve(slot, changed) => w.(core := ObserveSession(w.core, slot, changed))
    case AUnsubscribe(id) => w.(core := Unsubscribe(w.core, id))
  }

  function After(run: seq<Action>): World {
    if run == [] then START else Step(After(run[..|run| - 1]), run[|run| - 1])
  }

  // ---------------------------------------------------------------------------
  // What is observed of an epoch
  // ---------------------------------------------------------------------------

  function FramesOf(sent: seq<Frame>, epoch: nat): seq<Frame> {
    if sent == [] then []
    else
      var f := sent[|sent| - 1];
      FramesOf(sent[..|sent| - 1], epoch) + if f.epoch == epoch then [f] else []
  }

  function Events(frames: seq<Frame>): seq<Event> {
    if frames == [] then []
    else
      var f := frames[|frames| - 1];
      Events(frames[..|frames| - 1]) + if f.payload.EventBatch? then [f.payload.event] else []
  }

  /** 1, 2, 3, ... in send order. */
  predicate Numbered(frames: seq<Frame>, epoch: nat) {
    forall i :: 0 <= i < |frames| ==> frames[i].epoch == epoch && frames[i].sequence == i + 1
  }

  predicate SnapshotFirst(frames: seq<Frame>) {
    frames == [] || frames[0].payload.Snapshot?
  }

  /** Nothing precedes the snapshot, and what was sent is what was dispatched, up to now. */
  predicate InOrder(frames: seq<Frame>, hist: seq<Event>) {
    SnapshotFirst(frames) && Events(frames) <= hist
  }

  predicate Distinct(hist: seq<Event>) {
    forall i, j :: 0 <= i < j < |hist| ==> hist[i] != hist[j]
  }

  predicate Diverges(a: seq<Event>, b: seq<Event>) {
    exists j :: 0 <= j < |a| && j < |b| && a[j] != b[j]
  }

  // ---------------------------------------------------------------------------
  // The invariant
  // ---------------------------------------------------------------------------

  /** All frames carry one stream id. */
  predicate Carries(frames: seq<Frame>, id: string) {
    forall i :: 0 <= i < |frames| ==> frames[i].streamId == id
  }

  ghost predicate EpochInv(epoch: nat, frames: seq<Frame>, h: Trace) {
    && Numbered(frames, epoch)
    && Carries(frames, h.id)
    && (!h.tainted ==> InOrder(frames, h.hist))
    && (h.tainted ==> !SnapshotFirst(frames) || Diverges(Events(frames), h.hist) || !Distinct(h.hist))
    && (!h.failed ==> !h.tainted)
    && (h.isList ==> !h.failed)
  }

  ghost predicate StreamInv(s: Stream, frames: seq<Frame>, h: Trace) {
    && EpochInv(s.epoch, frames, h)
    && s.id == h.id
    && s.next == |frames| + 1
    && (s.buffering ==> frames == [])
    && (!h.tainted ==> Events(frames) + s.buffer == h.hist)
    && (!h.failed && !s.buffering ==> s.buffer == [] && frames != [])
    && (h.isList ==> forall i :: 0 <= i < |s.buffer| ==> s.buffer[i].summary)
  }

  ghost predicate LiveInv(w: World, s: Stream, isList: bool) {
    && StreamInv(s, FramesOf(w.core.sent, s.epoch), TraceOf(w, s.epoch))
    && TraceOf(w, s.epoch).isList == isList
  }

  ghost predicate EpochsBounded(w: World) {
    && (forall i :: 0 <= i < |w.core.sent| ==> w.core.sent[i].epoch <= w.core.epochCounter)
    && (forall slot <- w.core.sessions :: w.core.sessions[slot].epoch <= w.core.epochCounter)
    && (w.core.list.Some? ==> w.core.list.value.epoch <= w.core.epochCounter)
  }

  ghost predicate EpochsDistinct(c: Core) {
    && (forall a <- c.sessions, b <- c.sessions :: c.sessions[a].epoch == c.sessions[b].epoch ==> a == b)
    && (c.list.Some? ==> forall a <- c.sessions :: c.sessions[a].epoch != c.list.value.epoch)
  }

  ghost predicate EpochsInv(w: World) {
    forall epoch: nat :: EpochInv(epoch, FramesOf(w.core.sent, epoch), TraceOf(w, epoch))
  }

  ghost predicate SessionsLive(w: World) {
    forall slot <- w.core.sessions :: LiveInv(w, w.core.sessions[slot], false)
  }

  ghost predicate ListLive(w: World) {
    w.core.list.Some? ==> LiveInv(w, w.core.list.value, true)
  }

  ghost predicate Inv(w: World) {
    && EpochsBounded(w)
    && EpochsDistinct(w.core)
    && EpochsInv(w)
    && SessionsLive(w)
    && ListLive(w)
  }

  // ---------------------------------------------------------------------------
  // Lists
  // ---------------------------------------------------------------------------

  lemma {:induction false} FramesOfAppend(a: seq<Frame>, b: seq<Frame>, epoch: nat)
    ensures FramesOf(a + b, epoch) == FramesOf(a, epoch) + FramesOf(b, epoch)
    decreases |b|
  {
    if b == [] {
      assert a + b == a;
    } else {
      var last := |b| - 1;
      assert (a + b)[..|a + b| - 1] == a + b[..last];
      FramesOfAppend(a, b[..last], epoch);
    }
  }

  lemma {:induction false} FramesOfUniform(frames: seq<Frame>, own: nat, epoch: nat)
    requires forall i :: 0 <= i < |frames| ==> frames[i].epoch == own
    ensures FramesOf(frames, epoch) == if own == epoch then frames else []
    decreases |frames|
  {
    if frames != [] {
      FramesOfUniform(frames[..|frames| - 1], own, epoch);
    }
  }

  lemma {:induction false} FramesOfSource(sent: seq<Frame>, epoch: nat)
    ensures forall f :: f in FramesOf(sent, epoch) <==> f in sent && f.epoch == epoch
    decreases |sent|
  {
    if sent != [] {
      var last := |sent| - 1;
      FramesOfSource(sent[..last], epoch);
      assert sent == sent[..last] + [sent[last]];
    }
  }

  lemma {:induction false} EventsAppend(a: seq<Frame>, b: seq<Frame>)
    ensures Events(a + b) == Events(a) + Events(b)
    decreases |b|
  {
    if b == [] {
      assert a + b == a;
    } else {
      var last := |b| - 1;
      assert (a + b)[..|a + b| - 1] == a + b[..last];
      EventsAppend(a, b[..last]);
    }
  }

  lemma {:induction false} EventsOfBatches(s: Stream, events: seq<Event>)
    ensures Events(Frames(s, [Snapshot] + Batches(events))) == events
    decreases |events|
  {
    var frames := Frames(s, [Snapshot] + Batches(events));
    if events == [] {
      assert frames[..|frames| - 1] == [];
    } else {
      var last := |events| - 1;
      EventsOfBatches(s, events[..last]);
      assert frames[..|frames| - 1] == Frames(s, [Snapshot] + Batches(events[..last]));
    }
  }

  lemma {:induction false} SummariesOfSummaries(events: seq<Event>)
    requires forall i :: 0 <= i < |events| ==> events[i].summary
    ensures Summaries(events) == events
    decreases |events|
  {
    if events != [] {
      SummariesOfSummaries(events[..|events| - 1]);
    }
  }

  lemma {:induction false} DivergesGrows(a: seq<Event>, b: seq<Event>, c: seq<Event>, d: seq<Event>)
    requires Diverges(a, b)
    ensures Diverges(a + c, b + d)
  {
    var j :| 0 <= j < |a| && j < |b| && a[j] != b[j];
    assert (a + c)[j] != (b + d)[j];
  }

  lemma {:induction false} DistinctPrefix(a: seq<Event>, b: seq<Event>)
    requires Distinct(a + b)
    ensures Distinct(a)
  {
    forall i, j | 0 <= i < j < |a| ensures a[i] != a[j] {
      assert (a + b)[i] != (a + b)[j];
    }
  }

  /** A stream gone wrong stays wrong. */
  lemma {:induction false} BadGrows(frames: seq<Frame>, hist: seq<Event>, more: seq<Frame>, events: seq<Event>)
    requires !SnapshotFirst(frames) || Diverges(Events(frames), hist) || !Distinct(hist)
    ensures !SnapshotFirst(frames + more) || Diverges(Events(frames + more), hist + events) || !Distinct(hist + events)
  {
    EventsAppend(frames, more);
    if Diverges(Events(frames), hist) {
      DivergesGrows(Events(frames), hist, Events(more), events);
    } else if !Distinct(hist) {
      if Distinct(hist + events) {
        DistinctPrefix(hist, events);
      }
    }
  }

  // ---------------------------------------------------------------------------
  // One stream
  // ---------------------------------------------------------------------------

  /** Sending `payloads` on a stream keeps the numbering. */
  lemma {:induction false} NumberedGrows(s: Stream, frames: seq<Frame>, payloads: seq<Payload>)
    requires Numbered(frames, s.epoch) && s.next == |frames| + 1
    ensures Numbered(frames + Frames(s, payloads), s.epoch)
    ensures Carries(frames, s.id) ==> Carries(frames + Frames(s, payloads), s.id)
  {
  }

  lemma {:induction false} BufferedKeeps(s: Stream, frames: seq<Frame>, h: Trace, e: Event)
    requires StreamInv(s, frames, h) && (h.isList ==> e.summary) && s.buffering
    ensures StreamInv(s.(buffer := s.buffer + [e]), frames, h.(hist := h.hist + [e]))
  {
    assert frames + [] == frames;
    if h.tainted {
      BadGrows(frames, h.hist, [], [e]);
    }
  }

  lemma {:induction false} SentKeeps(s: Stream, frames: seq<Frame>, h: Trace, e: Event)
    requires StreamInv(s, frames, h) && (h.isList ==> e.summary) && !s.buffering
    ensures StreamInv(s.(next := s.next + 1), frames + Frames(s, [EventBatch(e)]), TraceDispatch(h, s, e))
  {
    var more := Frames(s, [EventBatch(e)]);
    NumberedGrows(s, frames, [EventBatch(e)]);
    EventSent(frames, more, e);
    if h.tainted {
      BadGrows(frames, h.hist, more, [e]);
    } else if s.buffer != [] {
      OvertakenDiverges(Events(frames), s.buffer, e);
    } else {
      assert Events(frames) + [] == Events(frames);
    }
  }

  lemma {:induction false} EventSent(frames: seq<Frame>, more: seq<Frame>, e: Event)
    requires |more| == 1 && more[0].payload == EventBatch(e)
    ensures Events(frames + more) == Events(frames) + [e]
  {
    assert (frames + more)[..|frames|] == frames;
  }

  lemma {:induction false} DispatchedKeeps(s: Stream, frames: seq<Frame>, h: Trace, e: Event)
    requires StreamInv(s, frames, h) && (h.isList ==> e.summary)
    ensures var m := Dispatched(s, e);
            StreamInv(m.stream, frames + Frames(s, m.payloads), TraceDispatch(h, s, e))
  {
    if s.buffering {
      BufferedKeeps(s, frames, h, e);
      assert frames + Frames(s, []) == frames;
    } else {
      SentKeeps(s, frames, h, e);
    }
  }

  /** Sending `e` ahead of the events still buffered shows. */
  lemma {:induction false} OvertakenDiverges(out: seq<Event>, buffer: seq<Event>, e: Event)
    requires buffer != []
    ensures var hist := out + buffer + [e];
            Diverges(out + [e], hist) || !Distinct(hist)
  {
    var hist := out + buffer + [e];
    assert hist[|out|] == buffer[0] && hist[|hist| - 1] == e;
    if buffer[0] != e {
      assert (out + [e])[|out|] != hist[|out|];
    }
  }

  lemma {:induction false} SnapshotKeeps(s: Stream, frames: seq<Frame>, h: Trace)
    requires StreamInv(s, frames, h) && !s.buffering
    ensures var m := Advance(s, [Snapshot]);
            StreamInv(m.stream, frames + Frames(s, m.payloads), h)
  {
    var more := Frames(s, [Snapshot]);
    NumberedGrows(s, frames, [Snapshot]);
    EventsUnchanged(frames, more);
    if h.tainted {
      BadGrows(frames, h.hist, more, []);
      assert h.hist + [] == h.hist;
    }
  }

  lemma {:induction false} EventsUnchanged(frames: seq<Frame>, more: seq<Frame>)
    requires |more| == 1 && more[0].payload == Snapshot
    ensures Events(frames + more) == Events(frames)
  {
    assert (frames + more)[..|frames|] == frames;
  }

  lemma {:induction false} FinishedKeeps(s: Stream, frames: seq<Frame>, h: Trace)
    requires StreamInv(s, frames, h)
    ensures var m := Finished(s, s.buffer);
            StreamInv(m.stream, frames + Frames(s, m.payloads), h)
  {
    var m := Finished(s, s.buffer);
    var more := Frames(s, m.payloads);
    NumberedGrows(s, frames, m.payloads);
    EventsAppend(frames, more);
    EventsOfBatches(s, s.buffer);
    assert more[0].payload == Snapshot;
    if h.tainted {
      BadGrows(frames, h.hist, more, []);
      assert h.hist + [] == h.hist;
    }
  }

  lemma {:induction false} FailedKeeps(s: Stream, frames: seq<Frame>, h: Trace)
    requires StreamInv(s, frames, h) && !h.isList
    ensures StreamInv(s.(buffering := false), frames + Frames(s, []), h.(failed := true))
  {
    assert frames + Frames(s, []) == frames;
  }

  // ---------------------------------------------------------------------------
  // The others
  // ---------------------------------------------------------------------------

  /** Frames of one epoch leave what is seen of the others. */
  lemma {:induction false} SentSplits(sent: seq<Frame>, s: Stream, payloads: seq<Payload>)
    ensures forall epoch: nat :: FramesOf(sent + Frames(s, payloads), epoch)
              == if epoch == s.epoch then FramesOf(sent, epoch) + Frames(s, payloads) else FramesOf(sent, epoch)
  {
    forall epoch: nat
      ensures FramesOf(sent + Frames(s, payloads), epoch)
           == if epoch == s.epoch then FramesOf(sent, epoch) + Frames(s, payloads) else FramesOf(sent, epoch)
    {
      FramesOfAppend(sent, Frames(s, payloads), epoch);
      FramesOfUniform(Frames(s, payloads), s.epoch, epoch);
    }
  }

  /** A move of the stream of epoch `own` leaves every other epoch's view as it was. */
  ghost predicate Elsewhere(w: World, v: World, own: nat) {
    forall epoch: nat :: epoch != own ==>
      FramesOf(v.core.sent, epoch) == FramesOf(w.core.sent, epoch) && TraceOf(v, epoch) == TraceOf(w, epoch)
  }

  lemma {:induction false} EpochsKept(w: World, v: World, own: nat)
    requires EpochsInv(w) && Elsewhere(w, v, own)
    requires EpochInv(own, FramesOf(v.core.sent, own), TraceOf(v, own))
    ensures EpochsInv(v)
  {
    forall epoch: nat ensures EpochInv(epoch, FramesOf(v.core.sent, epoch), TraceOf(v, epoch)) {
      if epoch != own {
        assert EpochInv(epoch, FramesOf(w.core.sent, epoch), TraceOf(w, epoch));
      }
    }
  }

  lemma {:induction false} OnSessionElsewhere(w: World, slot: Slot, m: Move, h: Trace)
    requires slot in w.core.sessions
    ensures var s := w.core.sessions[slot]; var v := OnSession(w, slot, m, h);
            && Elsewhere(w, v, s.epoch)
            && FramesOf(v.core.sent, s.epoch) == FramesOf(w.core.sent, s.epoch) + Frames(s, m.payloads)
            && TraceOf(v, s.epoch) == h
  {
    SentSplits(w.core.sent, w.core.sessions[slot], m.payloads);
  }

  lemma {:induction false} OnSessionKeepsEpochs(w: World, slot: Slot, m: Move, h: Trace)
    requires EpochsBounded(w) && EpochsDistinct(w.core) && slot in w.core.sessions
    requires m.stream.epoch == w.core.sessions[slot].epoch
    ensures EpochsBounded(OnSession(w, slot, m, h)) && EpochsDistinct(OnSession(w, slot, m, h).core)
  {
  }

  lemma {:induction false} OtherStreamKept(w: World, v: World, own: nat, s: Stream, isList: bool)
    requires Elsewhere(w, v, own) && LiveInv(w, s, isList) && s.epoch != own
    ensures LiveInv(v, s, isList)
  {
  }

  lemma {:induction false} SessionsStayLive(w: World, v: World, slot: Slot, own: nat, t: Stream)
    requires slot in w.core.sessions && w.core.sessions[slot].epoch == own
    requires EpochsDistinct(w.core) && SessionsLive(w) && Elsewhere(w, v, own)
    requires v.core.sessions == w.core.sessions[slot := t] && LiveInv(v, t, false)
    ensures SessionsLive(v)
  {
    forall other <- v.core.sessions ensures LiveInv(v, v.core.sessions[other], false) {
      if other != slot {
        OtherStreamKept(w, v, own, w.core.sessions[other], false);
      }
    }
  }

  lemma {:induction false} OnSessionKeepsSessions(w: World, slot: Slot, m: Move, h: Trace)
    requires EpochsDistinct(w.core) && SessionsLive(w) && slot in w.core.sessions
    requires m.stream.epoch == w.core.sessions[slot].epoch
    requires var s := w.core.sessions[slot];
             StreamInv(m.stream, FramesOf(w.core.sent, s.epoch) + Frames(s, m.payloads), h) && !h.isList
    ensures SessionsLive(OnSession(w, slot, m, h))
  {
    var v := OnSession(w, slot, m, h);
    assert LiveInv(v, m.stream, false) && Elsewhere(w, v, m.stream.epoch) by {
      OnSessionElsewhere(w, slot, m, h);
    }
    SessionsStayLive(w, v, slot, m.stream.epoch, m.stream);
  }

  lemma {:induction false} OnSessionKeepsList(w: World, slot: Slot, m: Move, h: Trace)
    requires EpochsDistinct(w.core) && ListLive(w) && slot in w.core.sessions
    ensures ListLive(OnSession(w, slot, m, h))
  {
    OnSessionElsewhere(w, slot, m, h);
    if w.core.list.Some? {
      OtherStreamKept(w, OnSession(w, slot, m, h), w.core.sessions[slot].epoch, w.core.list.value, true);
    }
  }

  lemma {:induction false} OnSessionKeepsInv(w: World, slot: Slot, m: Move, h: Trace)
    requires Inv(w) && slot in w.core.sessions
    requires m.stream.epoch == w.core.sessions[slot].epoch
    requires var s := w.core.sessions[slot];
             StreamInv(m.stream, FramesOf(w.core.sent, s.epoch) + Frames(s, m.payloads), h) && !h.isList
    ensures Inv(OnSession(w, slot, m, h))
  {
    OnSessionElsewhere(w, slot, m, h);
    EpochsKept(w, OnSession(w, slot, m, h), w.core.sessions[slot].epoch);
    OnSessionKeepsEpochs(w, slot, m, h);
    OnSessionKeepsSessions(w, slot, m, h);
    OnSessionKeepsList(w, slot, m, h);
  }

  lemma {:induction false} OnListElsewhere(w: World, m: Move, h: Trace)
    requires w.core.list.Some?
    ensures var s := w.core.list.value; var v := OnList(w, m, h);
            && Elsewhere(w, v, s.epoch)
            && FramesOf(v.core.sent, s.epoch) == FramesOf(w.core.sent, s.epoch) + Frames(s, m.payloads)
            && TraceOf(v, s.epoch) == h
  {
    SentSplits(w.core.sent, w.core.list.value, m.payloads);
  }

  lemma {:induction false} OnListKeepsEpochs(w: World, m: Move, h: Trace)
    requires EpochsBounded(w) && EpochsDistinct(w.core) && w.core.list.Some?
    requires m.stream.epoch == w.core.list.value.epoch
    ensures EpochsBounded(OnList(w, m, h)) && EpochsDistinct(OnList(w, m, h).core)
  {
  }

  lemma {:induction false} OnListKeepsSessions(w: World, m: Move, h: Trace)
    requires EpochsDistinct(w.core) && SessionsLive(w) && w.core.list.Some?
    ensures SessionsLive(OnList(w, m, h))
  {
    var v := OnList(w, m, h);
    OnListElsewhere(w, m, h);
    forall other <- v.core.sessions ensures LiveInv(v, v.core.sessions[other], false) {
      OtherStreamKept(w, v, w.core.list.value.epoch, w.core.sessions[other], false);
    }
  }

  lemma {:induction false} OnListKeepsInv(w: World, m: Move, h: Trace)
    requires Inv(w) && w.core.list.Some?
    requires m.stream.epoch == w.core.list.value.epoch && h.isList
    requires var s := w.core.list.value;
             StreamInv(m.stream, FramesOf(w.core.sent, s.epoch) + Frames(s, m.payloads), h)
    ensures Inv(OnList(w, m, h))
  {
    OnListElsewhere(w, m, h);
    EpochsKept(w, OnList(w, m, h), w.core.list.value.epoch);
    OnListKeepsEpochs(w, m, h);
    OnListKeepsSessions(w, m, h);
  }

  // ---------------------------------------------------------------------------
  // Steps
  // ---------------------------------------------------------------------------

  /** No frame of an epoch that has not begun. */
  lemma {:induction false} UnbegunEpoch(sent: seq<Frame>, epoch: nat)
    requires forall i :: 0 <= i < |sent| ==> sent[i].epoch < epoch
    ensures FramesOf(sent, epoch) == []
    decreases |sent|
  {
    if sent != [] {
      UnbegunEpoch(sent[..|sent| - 1], epoch);
    }
  }

  lemma {:induction false} BegunIsInv(s: Stream, h: Trace)
    requires s.next == 1 && s.buffering && s.buffer == []
    requires h.hist == [] && !h.failed && !h.tainted && h.id == s.id
    ensures StreamInv(s, [], h)
  {
  }

  lemma {:induction false} BeginSessionKeeps(w: World, slot: Slot, id: Option<string>)
    requires Inv(w)
    ensures Inv(Step(w, ABeginSession(slot, id)))
  {
    var v := Step(w, ABeginSession(slot, id));
    SessionBegunKeeps(w, v, slot, v.core.sessions[slot]);
  }

  lemma {:induction false} SessionBegunKeeps(w: World, v: World, slot: Slot, s: Stream)
    requires Inv(w)
    requires v.core == w.core.(epochCounter := s.epoch, sessions := w.core.sessions[slot := s])
    requires s.epoch == w.core.epochCounter + 1 && s.next == 1 && s.buffering && s.buffer == []
    requires v.traces == w.traces[s.epoch := Trace(false, [], false, false, s.id)]
    ensures Inv(v)
  {
    BegunElsewhere(w, v, s);
    EpochsKept(w, v, s.epoch);
    BegunKeepsEpochs(w, v, slot, s);
    BegunSessionLive(w, v, slot, s);
    BegunListLive(w, v, s.epoch);
  }

  lemma {:induction false} BegunKeepsEpochs(w: World, v: World, slot: Slot, s: Stream)
    requires EpochsBounded(w) && EpochsDistinct(w.core)
    requires v.core == w.core.(epochCounter := s.epoch, sessions := w.core.sessions[slot := s])
    requires s.epoch == w.core.epochCounter + 1
    ensures EpochsBounded(v) && EpochsDistinct(v.core)
  {
  }

  lemma {:induction false} BegunElsewhere(w: World, v: World, s: Stream)
    requires EpochsBounded(w) && v.core.sent == w.core.sent
    requires s.epoch == w.core.epochCounter + 1 && s.next == 1 && s.buffering && s.buffer == []
    requires v.traces == w.traces[s.epoch := Trace(false, [], false, false, s.id)]
    ensures Elsewhere(w, v, s.epoch) && LiveInv(v, s, false)
  {
    UnbegunEpoch(w.core.sent, s.epoch);
    BegunIsInv(s, TraceOf(v, s.epoch));
  }

  lemma {:induction false} BegunListLive(w: World, v: World, epoch: nat)
    requires EpochsBounded(w) && ListLive(w) && Elsewhere(w, v, epoch) && epoch > w.core.epochCounter
    requires v.core.list == w.core.list
    ensures ListLive(v)
  {
    if w.core.list.Some? {
      OtherStreamKept(w, v, epoch, w.core.list.value, true);
    }
  }

  lemma {:induction false} BegunSessionLive(w: World, v: World, slot: Slot, s: Stream)
    requires EpochsBounded(w) && SessionsLive(w) && Elsewhere(w, v, s.epoch) && s.epoch > w.core.epochCounter
    requires v.core.sessions == w.core.sessions[slot := s] && LiveInv(v, s, false)
    ensures SessionsLive(v)
  {
    forall other <- v.core.sessions ensures LiveInv(v, v.core.sessions[other], false) {
      if other != slot {
        OtherStreamKept(w, v, s.epoch, w.core.sessions[other], false);
      }
    }
  }

  lemma {:induction false} BeginListKeeps(w: World, id: Option<string>)
    requires Inv(w)
    ensures Inv(Step(w, ABeginList(id)))
  {
    var v := Step(w, ABeginList(id));
    var epoch := v.core.epochCounter;
    UnbegunEpoch(w.core.sent, epoch);
    BegunIsInv(v.core.list.value, TraceOf(v, epoch));
    assert Elsewhere(w, v, epoch);
    EpochsKept(w, v, epoch);
    forall other <- v.core.sessions ensures LiveInv(v, v.core.sessions[other], false) {
      OtherStreamKept(w, v, epoch, w.core.sessions[other], false);
    }
  }

  lemma {:induction false} FinishListKeeps(w: World)
    requires Inv(w)
    ensures Inv(Step(w, AFinishList))
  {
    if w.core.list.Some? {
      var s, h := w.core.list.value, ListTrace(w);
      SummariesOfSummaries(s.buffer);
      FinishedKeeps(s, FramesOf(w.core.sent, s.epoch), h);
      OnListKeepsInv(w, Finished(s, s.buffer), h);
      SameTrace(w, OnList(w, Finished(s, s.buffer), h), Step(w, AFinishList));
    }
  }

  /** Writing back the trace that was read changes nothing an invariant looks at. */
  lemma {:induction false} SameTrace(w: World, v: World, u: World)
    requires u.core == v.core && Inv(v)
    requires forall epoch: nat :: TraceOf(u, epoch) == TraceOf(v, epoch)
    ensures Inv(u)
  {
    forall epoch: nat ensures EpochInv(epoch, FramesOf(u.core.sent, epoch), TraceOf(u, epoch)) {
      assert EpochInv(epoch, FramesOf(v.core.sent, epoch), TraceOf(v, epoch));
    }
    forall slot <- u.core.sessions ensures LiveInv(u, u.core.sessions[slot], false) {
      assert LiveInv(v, v.core.sessions[slot], false);
    }
  }

  lemma {:induction false} SessionIsLive(w: World, slot: Slot)
    requires SessionsLive(w) && slot in w.core.sessions
    ensures var s, h := w.core.sessions[slot], SessionTrace(w, slot);
            StreamInv(s, FramesOf(w.core.sent, s.epoch), h) && !h.isList
  {
    assert LiveInv(w, w.core.sessions[slot], false);
  }

  lemma {:induction false} FetchedMoves(w: World, slot: Slot)
    requires SessionsLive(w) && slot in w.core.sessions
    ensures var s, h := w.core.sessions[slot], SessionTrace(w, slot); var m := Finished(s, s.buffer);
            m.stream.epoch == s.epoch && !h.isList
            && StreamInv(m.stream, FramesOf(w.core.sent, s.epoch) + Frames(s, m.payloads), h)
  {
    SessionIsLive(w, slot);
    var s := w.core.sessions[slot];
    FinishedKeeps(s, FramesOf(w.core.sent, s.epoch), SessionTrace(w, slot));
  }

  lemma {:induction false} FetchedKeeps(w: World, slot: Slot)
    requires Inv(w) && slot in w.core.sessions
    ensures Inv(Step(w, AFinishSession(slot, true)))
  {
    var s, h := w.core.sessions[slot], SessionTrace(w, slot);
    FetchedMoves(w, slot);
    OnSessionKeepsInv(w, slot, Finished(s, s.buffer), h);
    SameTrace(w, OnSession(w, slot, Finished(s, s.buffer), h), Step(w, AFinishSession(slot, true)));
  }

  lemma {:induction false} FetchFailedMoves(w: World, slot: Slot)
    requires SessionsLive(w) && slot in w.core.sessions
    ensures var s, h := w.core.sessions[slot], SessionTrace(w, slot); var m := Move(s.(buffering := false), []);
            m.stream.epoch == s.epoch && !h.isList
            && StreamInv(m.stream, FramesOf(w.core.sent, s.epoch) + Frames(s, m.payloads), h.(failed := true))
            && Step(w, AFinishSession(slot, false)) == OnSession(w, slot, m, h.(failed := true))
  {
    SessionIsLive(w, slot);
    var s := w.core.sessions[slot];
    FailedKeeps(s, FramesOf(w.core.sent, s.epoch), SessionTrace(w, slot));
  }

  lemma {:induction false} FetchFailedKeeps(w: World, slot: Slot)
    requires Inv(w) && slot in w.core.sessions
    ensures Inv(Step(w, AFinishSession(slot, false)))
  {
    FetchFailedMoves(w, slot);
    OnSessionKeepsInv(w, slot, Move(w.core.sessions[slot].(buffering := false), []), SessionTrace(w, slot).(failed := true));
  }

  lemma {:induction false} SessionDispatchedKeeps(w: World, slot: Slot, e: Event)
    requires Inv(w)
    ensures Inv(SessionDispatched(w, slot, e))
  {
    if slot in w.core.sessions {
      var s, h := w.core.sessions[slot], SessionTrace(w, slot);
      assert LiveInv(w, s, false);
      DispatchedKeeps(s, FramesOf(w.core.sent, s.epoch), h, e);
      OnSessionKeepsInv(w, slot, Dispatched(s, e), TraceDispatch(h, s, e));
    }
  }

  lemma {:induction false} ListDispatchedKeeps(w: World, e: Event)
    requires Inv(w)
    ensures Inv(ListDispatched(w, e))
  {
    if w.core.list.Some? && e.summary {
      var s, h := w.core.list.value, ListTrace(w);
      DispatchedKeeps(s, FramesOf(w.core.sent, s.epoch), h, e);
      OnListKeepsInv(w, Dispatched(s, e), TraceDispatch(h, s, e));
    }
  }

  lemma {:induction false} RefreshKeeps(w: World, id: string, epoch: nat)
    requires Inv(w)
    ensures Inv(Step(w, ARefreshList(id, epoch)))
  {
    if Step(w, ARefreshList(id, epoch)) != w {
      var s, h := w.core.list.value, ListTrace(w);
      SnapshotKeeps(s, FramesOf(w.core.sent, s.epoch), h);
      OnListKeepsInv(w, Advance(s, [Snapshot]), h);
      SameTrace(w, OnList(w, Advance(s, [Snapshot]), h), Step(w, ARefreshList(id, epoch)));
    }
  }

  lemma {:induction false} ObserveKeeps(w: World, slot: Slot, changed: bool)
    requires Inv(w)
    ensures Inv(Step(w, AObserve(slot, changed)))
  {
    if slot in w.core.sessions && !w.core.sessions[slot].buffering && changed {
      var s, h := w.core.sessions[slot], SessionTrace(w, slot);
      assert LiveInv(w, s, false);
      SnapshotKeeps(s, FramesOf(w.core.sent, s.epoch), h);
      OnSessionKeepsInv(w, slot, Advance(s, [Snapshot]), h);
      SameTrace(w, OnSession(w, slot, Advance(s, [Snapshot]), h), Step(w, AObserve(slot, changed)));
    }
  }

  lemma {:induction false} UnsubscribeKeeps(w: World, id: string)
    requires Inv(w)
    ensures Inv(Step(w, AUnsubscribe(id)))
  {
    var v := Step(w, AUnsubscribe(id));
    forall epoch: nat ensures EpochInv(epoch, FramesOf(v.core.sent, epoch), TraceOf(v, epoch)) {
      assert EpochInv(epoch, FramesOf(w.core.sent, epoch), TraceOf(w, epoch));
    }
    forall slot <- v.core.sessions ensures LiveInv(v, v.core.sessions[slot], false) {
      assert LiveInv(w, w.core.sessions[slot], false);
    }
  }

  lemma {:induction false} RunKeepsInv(run: seq<Action>)
    ensures Inv(After(run))
    decreases |run|
  {
    if run != [] {
      var w := After(run[..|run| - 1]);
      RunKeepsInv(run[..|run| - 1]);
      match run[|run| - 1]
      case ABeginList(id) => BeginListKeeps(w, id);
      case AFinishList => FinishListKeeps(w);
      case ABeginSession(slot, id) => BeginSessionKeeps(w, slot, id);
      case AFinishSession(slot, fetched) =>
        if slot in w.core.sessions {
          if fetched { FetchedKeeps(w, slot); } else { FetchFailedKeeps(w, slot); }
        }
      case ADispatch(slot, e) =>
        SessionDispatchedKeeps(w, slot, e);
        ListDispatchedKeeps(SessionDispatched(w, slot, e), e);
      case ARefreshList(id, epoch) => RefreshKeeps(w, id, epoch);
      case AObserve(slot, changed) => ObserveKeeps(w, slot, changed);
      case AUnsubscribe(id) => UnsubscribeKeeps(w, id);
    }
  }

  // ---------------------------------------------------------------------------
  // Main results
  // ---------------------------------------------------------------------------

  /** What was sent in an epoch, in order. */
  function Output(run: seq<Action>, epoch: nat): seq<Frame> {
    FramesOf(After(run).core.sent, epoch)
  }

  /** What was dispatched to the stream of an epoch while that epoch was its current one. */
  function Input(run: seq<Action>, epoch: nat): seq<Event> {
    TraceOf(After(run), epoch).hist
  }

  /** List stream: the frames of the live epoch are numbered 1, 2, 3, ... in send order, the first is a
      full snapshot, and the summary events dispatched in the epoch are the events in its frames
      followed by the buffer. Nothing is buffered once the snapshot is out. */
  lemma {:induction false} ListStreamIsFaithful(run: seq<Action>)
    requires After(run).core.list.Some?
    ensures var s := After(run).core.list.value; var frames := Output(run, s.epoch);
            && Numbered(frames, s.epoch) && s.next == |frames| + 1
            && SnapshotFirst(frames)
            && Events(frames) + s.buffer == Input(run, s.epoch)
            && (s.buffering <==> frames == [])
            && (!s.buffering ==> s.buffer == [])
  {
    RunKeepsInv(run);
  }

  /** Every epoch of a list stream, abandoned ones included, sent a prefix of what was dispatched. */
  lemma {:induction false} ListEpochsStayInOrder(run: seq<Action>, epoch: nat)
    requires TraceOf(After(run), epoch).isList
    ensures Numbered(Output(run, epoch), epoch) && InOrder(Output(run, epoch), Input(run, epoch))
  {
    RunKeepsInv(run);
    assert EpochInv(epoch, Output(run, epoch), TraceOf(After(run), epoch));
  }

  /** The frames of any epoch of any stream are numbered 1, 2, 3, ... in send order. */
  lemma {:induction false} EveryEpochIsNumbered(run: seq<Action>, epoch: nat)
    ensures Numbered(Output(run, epoch), epoch)
  {
    RunKeepsInv(run);
    assert EpochInv(epoch, Output(run, epoch), TraceOf(After(run), epoch));
  }

  lemma {:induction false} StepKeepsId(w: World, a: Action, epoch: nat, id: string)
    requires HasId(w, epoch, id)
    ensures HasId(Step(w, a), epoch, id)
  {
  }

  lemma {:induction false} AfterMore(run: seq<Action>, more: seq<Action>)
    requires more != []
    ensures After(run + more) == Step(After(run + more[..|more| - 1]), more[|more| - 1])
  {
    assert (run + more)[..|run + more| - 1] == run + more[..|more| - 1];
  }

  ghost predicate HasId(w: World, epoch: nat, id: string) {
    epoch <= w.core.epochCounter && TraceOf(w, epoch).id == id
  }

  lemma {:induction false} IdStays(run: seq<Action>, more: seq<Action>, epoch: nat, id: string)
    requires HasId(After(run), epoch, id)
    ensures HasId(After(run + more), epoch, id)
    decreases |more|
  {
    if more == [] {
      assert run + more == run;
    } else {
      IdStays(run, more[..|more| - 1], epoch, id);
      AfterMore(run, more);
      StepKeepsId(After(run + more[..|more| - 1]), more[|more| - 1], epoch, id);
    }
  }

  lemma {:induction false} EpochCarriesTracedId(run: seq<Action>, epoch: nat)
    ensures Carries(Output(run, epoch), TraceOf(After(run), epoch).id)
  {
    RunKeepsInv(run);
    assert EpochInv(epoch, Output(run, epoch), TraceOf(After(run), epoch));
  }

  lemma {:induction false} EpochKeepsId(run: seq<Action>, more: seq<Action>, epoch: nat, id: string)
    requires HasId(After(run), epoch, id)
    ensures Carries(Output(run + more, epoch), id)
  {
    IdStays(run, more, epoch, id);
    EpochCarriesTracedId(run + more, epoch);
  }

  lemma {:induction false} ListBegun(w: World, upstreamId: Option<string>)
    ensures var v := Step(w, ABeginList(upstreamId));
            v.core.epochCounter == w.core.epochCounter + 1
            && TraceOf(v, w.core.epochCounter + 1).id == WantedId(upstreamId, w.core.list, "list")
  {
  }

  /** Whatever follows an establishment of the list stream, all frames of its epoch carry one stream id: the
      Relay's, if it was given one, else the one the stream had, else "list". */
  lemma {:induction false} ListEpochCarriesItsId(run: seq<Action>, upstreamId: Option<string>, more: seq<Action>)
    ensures Carries(Output(run + [ABeginList(upstreamId)] + more, After(run).core.epochCounter + 1),
                    WantedId(upstreamId, After(run).core.list, "list"))
  {
    ListBegun(After(run), upstreamId);
    AfterNext(run, ABeginList(upstreamId));
    EpochKeepsId(run + [ABeginList(upstreamId)], more, After(run).core.epochCounter + 1,
                 WantedId(upstreamId, After(run).core.list, "list"));
  }

  lemma {:induction false} SessionBegun(w: World, slot: Slot, upstreamId: Option<string>)
    ensures var v := Step(w, ABeginSession(slot, upstreamId));
            v.core.epochCounter == w.core.epochCounter + 1
            && TraceOf(v, w.core.epochCounter + 1).id == WantedId(upstreamId, Session(w.core, slot), SessionName(slot))
  {
  }

  /** The same for the stream of a session slot. */
  lemma {:induction false} SessionEpochCarriesItsId(run: seq<Action>, slot: Slot, upstreamId: Option<string>, more: seq<Action>)
    ensures Carries(Output(run + [ABeginSession(slot, upstreamId)] + more, After(run).core.epochCounter + 1),
                    WantedId(upstreamId, Session(After(run).core, slot), SessionName(slot)))
  {
    SessionBegun(After(run), slot, upstreamId);
    AfterNext(run, ABeginSession(slot, upstreamId));
    EpochKeepsId(run + [ABeginSession(slot, upstreamId)], more, After(run).core.epochCounter + 1,
                 WantedId(upstreamId, Session(After(run).core, slot), SessionName(slot)));
  }

  /** A live stream has the id its epoch's frames carry. */
  lemma {:induction false} LiveStreamsCarryTheirIds(run: seq<Action>)
    ensures var c := After(run).core;
            && (c.list.Some? ==> Carries(Output(run, c.list.value.epoch), c.list.value.id))
            && (forall slot <- c.sessions :: Carries(Output(run, c.sessions[slot].epoch), c.sessions[slot].id))
  {
    RunKeepsInv(run);
    var w := After(run);
    forall slot <- w.core.sessions ensures Carries(Output(run, w.core.sessions[slot].epoch), w.core.sessions[slot].id) {
      assert LiveInv(w, w.core.sessions[slot], false);
    }
  }

  /** A frame's sequence tells how many frames of its epoch were sent up to it. */
  lemma {:induction false} SequenceCounts(sent: seq<Frame>, i: nat)
    requires i < |sent| && Numbered(FramesOf(sent, sent[i].epoch), sent[i].epoch)
    ensures sent[i].sequence == |FramesOf(sent[..i + 1], sent[i].epoch)|
  {
    var epoch, upTo := sent[i].epoch, sent[..i + 1];
    assert upTo[..i] == sent[..i];
    assert sent == upTo + sent[i + 1..];
    FramesOfAppend(upTo, sent[i + 1..], epoch);
    var k := |FramesOf(sent[..i], epoch)|;
    assert FramesOf(sent, epoch)[k] == sent[i];
  }

  lemma {:induction false} LaterCountsMore(sent: seq<Frame>, i: nat, j: nat)
    requires i < j < |sent| && sent[j].epoch == sent[i].epoch
    ensures |FramesOf(sent[..i + 1], sent[i].epoch)| < |FramesOf(sent[..j + 1], sent[i].epoch)|
  {
    var epoch := sent[i].epoch;
    assert sent[..j + 1][..j] == sent[..j];
    assert sent[..j] == sent[..i + 1] + sent[i + 1..j];
    FramesOfAppend(sent[..i + 1], sent[i + 1..j], epoch);
  }

  /** No two frames share epoch and sequence, on any streams. */
  lemma {:induction false} SequencesAreUnique(run: seq<Action>, i: nat, j: nat)
    requires var sent := After(run).core.sent; i < |sent| && j < |sent|
    ensures var sent := After(run).core.sent;
            sent[i].epoch == sent[j].epoch && sent[i].sequence == sent[j].sequence ==> i == j
  {
    var sent := After(run).core.sent;
    if sent[i].epoch == sent[j].epoch {
      EveryEpochIsNumbered(run, sent[i].epoch);
      SequenceCounts(sent, i);
      SequenceCounts(sent, j);
      if i < j {
        LaterCountsMore(sent, i, j);
      } else if j < i {
        LaterCountsMore(sent, j, i);
      }
    }
  }

  /** Sends may be dropped, duplicated or overtaken on the way: a receiver whose frames of an epoch
      read 1..n holds exactly the first n frames of that epoch. */
  lemma {:induction false} GaplessReceiverHoldsPrefix(run: seq<Action>, epoch: nat, received: seq<Frame>)
    requires forall f <- received :: f in After(run).core.sent
    requires Numbered(received, epoch)
    ensures received <= Output(run, epoch)
  {
    var frames := Output(run, epoch);
    EveryEpochIsNumbered(run, epoch);
    FramesOfSource(After(run).core.sent, epoch);
    forall i | 0 <= i < |received| ensures i < |frames| && received[i] == frames[i] {
      assert received[i] in frames;
    }
    if received != [] {
      assert received[|received| - 1] in frames;
    }
  }

  /** Such a receiver, on a stream that is in order, holds events exactly as they were dispatched. */
  lemma {:induction false} GaplessReceiverHoldsHistory(run: seq<Action>, epoch: nat, received: seq<Frame>)
    requires forall f <- received :: f in After(run).core.sent
    requires Numbered(received, epoch) && !TraceOf(After(run), epoch).failed
    ensures InOrder(received, Input(run, epoch))
  {
    GaplessReceiverHoldsPrefix(run, epoch, received);
    RunKeepsInv(run);
    var frames := Output(run, epoch);
    assert EpochInv(epoch, frames, TraceOf(After(run), epoch));
    assert frames == received + frames[|received|..];
    EventsAppend(received, frames[|received|..]);
  }

  /** A stream, list or session, is in order exactly if no event was dispatched to it while its
      snapshot was outstanding or events were held back although it no longer buffered. */
  lemma {:induction false} InOrderExactlyWhen(run: seq<Action>, epoch: nat)
    requires Distinct(Input(run, epoch))
    ensures InOrder(Output(run, epoch), Input(run, epoch)) <==> !TraceOf(After(run), epoch).tainted
  {
    RunKeepsInv(run);
    var frames, h := Output(run, epoch), TraceOf(After(run), epoch);
    assert EpochInv(epoch, frames, h);
    if h.tainted && Diverges(Events(frames), h.hist) {
      var j :| 0 <= j < |Events(frames)| && j < |h.hist| && Events(frames)[j] != h.hist[j];
    }
  }

  /** A live session stream that no longer buffers has sent everything, in order and behind a snapshot,
      exactly if none of its events overtook and it holds none back. */
  lemma {:induction false} NothingLostExactlyWhen(run: seq<Action>, slot: Slot)
    requires slot in After(run).core.sessions && !After(run).core.sessions[slot].buffering
    requires Distinct(Input(run, After(run).core.sessions[slot].epoch))
    ensures var s := After(run).core.sessions[slot]; var frames := Output(run, s.epoch);
            SnapshotFirst(frames) && Events(frames) == Input(run, s.epoch)
            <==> !TraceOf(After(run), s.epoch).tainted && s.buffer == []
  {
    RunKeepsInv(run);
    var s := After(run).core.sessions[slot];
    assert LiveInv(After(run), s, false);
    InOrderExactlyWhen(run, s.epoch);
  }

  /** If no snapshot fetch finishing in its epoch failed, a session stream sent its snapshot before any
      event, and lost or reordered none: what is not sent is buffered behind the snapshot. */
  lemma {:induction false} SessionStreamIsFaithful(run: seq<Action>, slot: Slot)
    requires slot in After(run).core.sessions
    requires !TraceOf(After(run), After(run).core.sessions[slot].epoch).failed
    ensures var s := After(run).core.sessions[slot]; var frames := Output(run, s.epoch);
            && SnapshotFirst(frames)
            && Events(frames) + s.buffer == Input(run, s.epoch)
            && (s.buffering <==> frames == [])
            && (!s.buffering ==> s.buffer == [])
  {
    RunKeepsInv(run);
    assert LiveInv(After(run), After(run).core.sessions[slot], false);
  }

  lemma {:induction false} AfterNext(run: seq<Action>, a: Action)
    ensures After(run + [a]) == Step(After(run), a)
  {
    assert (run + [a])[..|run|] == run;
  }

  /** The run whose fetch fails with event `a` buffered. */
  lemma {:induction false} FailedFetch(slot: Slot, a: Event) returns (run: seq<Action>)
    ensures run == [ABeginSession(slot, None), ADispatch(slot, a), AFinishSession(slot, false)]
    ensures After(run) == World(Core(1, None, map[slot := Stream(SessionName(slot), 1, 1, false, [a])], []),
                                map[1 := Trace(false, [a], true, false, SessionName(slot))])
  {
    run := [ABeginSession(slot, None)];
    AfterNext([], ABeginSession(slot, None));
    assert [] + run == run;
    var s := Stream(SessionName(slot), 1, 1, true, []);
    var w1 := World(Core(1, None, map[slot := s], []), map[1 := Trace(false, [], false, false, SessionName(slot))]);
    assert After(run) == w1;
    AfterNext(run, ADispatch(slot, a));
    run := run + [ADispatch(slot, a)];
    var w2 := World(Core(1, None, map[slot := s.(buffer := [a])], []), map[1 := Trace(false, [a], false, false, SessionName(slot))]);
    assert w1.core.sessions[slot := s.(buffer := [a])] == w2.core.sessions;
    assert s.buffer + [a] == [a];
    assert DispatchSession(w1.core, slot, a) == w2.core;
    assert After(run) == w2;
    AfterNext(run, AFinishSession(slot, false));
    run := run + [AFinishSession(slot, false)];
  }

  /** With a failed fetch the promise breaks: the event buffered before the failure stays behind and
      the next one is sent first, with no snapshot before it. */
  lemma {:induction false} FailedFetchReorders(slot: Slot, a: Event, b: Event) returns (run: seq<Action>)
    ensures run == [ABeginSession(slot, None), ADispatch(slot, a), AFinishSession(slot, false), ADispatch(slot, b)]
    ensures Input(run, 1) == [a, b]
    ensures Output(run, 1) == [Frame(SessionName(slot), 1, 1, EventBatch(b))]
    ensures Session(After(run).core, slot) == Some(Stream(SessionName(slot), 1, 2, false, [a]))
  {
    run := FailedFetch(slot, a);
    AfterNext(run, ADispatch(slot, b));
    OvertakingDispatch(slot, a, b, After(run));
    run := run + [ADispatch(slot, b)];
  }

  lemma {:induction false} OvertakingDispatch(slot: Slot, a: Event, b: Event, w: World)
    requires w == World(Core(1, None, map[slot := Stream(SessionName(slot), 1, 1, false, [a])], []),
                        map[1 := Trace(false, [a], true, false, SessionName(slot))])
    ensures var v := Step(w, ADispatch(slot, b));
            && TraceOf(v, 1).hist == [a, b]
            && FramesOf(v.core.sent, 1) == [Frame(SessionName(slot), 1, 1, EventBatch(b))]
            && Session(v.core, slot) == Some(Stream(SessionName(slot), 1, 2, false, [a]))
  {
    var f := Frame(SessionName(slot), 1, 1, EventBatch(b));
    assert DispatchSession(w.core, slot, b).sent == [f];
    assert [f][..0] == [];
    assert FramesOf([f], 1) == [f];
  }

  // ---------------------------------------------------------------------------
  // What one section may touch
  // ---------------------------------------------------------------------------

  /** The slot a section is about. */
  predicate IsAbout(a: Action, slot: Slot) {
    (a.ABeginSession? || a.AFinishSession? || a.ADispatch? || a.AObserve?) && a.slot == slot
  }

  /** Every section leaves the other sessions' streams alone; those of the list stream leave all of them, and
      those of one session leave the list stream, but for the summaries dispatched. */
  lemma {:induction false} OthersUntouched(w: World, a: Action, slot: Slot)
    requires !IsAbout(a, slot) && !a.AUnsubscribe?
    ensures Session(Step(w, a).core, slot) == Session(w.core, slot)
    ensures a.ABeginSession? || a.AFinishSession? || a.AObserve? || (a.ADispatch? && !a.event.summary) ==>
              Step(w, a).core.list == w.core.list
  {
  }

  /** An unsubscribe sends nothing and ends the list stream if it has the id; if it has not, exactly the
      session streams that have it. */
  lemma {:induction false} UnsubscribeExactly(w: World, id: string, slot: Slot)
    ensures var c, d := w.core, Step(w, AUnsubscribe(id)).core;
            var isList := c.list.Some? && c.list.value.id == id;
            && d.sent == c.sent && d.epochCounter == c.epochCounter
            && d.list == (if isList then None else c.list)
            && (isList ==> d.sessions == c.sessions)
            && (slot in d.sessions <==> slot in c.sessions && (isList || c.sessions[slot].id != id))
            && (slot in d.sessions ==> d.sessions[slot] == c.sessions[slot])
  {
  }

  /** A snapshot fetched for a refresh is sent, as the next frame, exactly if the list stream is still the one
      it was fetched for, in the same epoch, and past its establishment; an epoch begun meanwhile gets none. */
  lemma {:induction false} RefreshExactly(w: World, id: string, epoch: nat)
    ensures var c, d := w.core, Step(w, ARefreshList(id, epoch)).core;
            if c.list.Some? && c.list.value.id == id && c.list.value.epoch == epoch && !c.list.value.buffering
            then d.sent == c.sent + [Frame(id, epoch, c.list.value.next, Snapshot)]
            else d == c
  {
    if w.core.list.Some? {
      assert Frames(w.core.list.value, [Snapshot])
          == [Frame(w.core.list.value.id, w.core.list.value.epoch, w.core.list.value.next, Snapshot)];
    }
  }

  /** An observed snapshot is sent, as the next frame, exactly if it differs and the session's stream is past
      its establishment. */
  lemma {:induction false} ObserveExactly(w: World, slot: Slot, changed: bool)
    ensures var c, d := w.core, Step(w, AObserve(slot, changed)).core;
            if slot in c.sessions && !c.sessions[slot].buffering && changed
            then d.sent == c.sent + [Frame(c.sessions[slot].id, c.sessions[slot].epoch, c.sessions[slot].next, Snapshot)]
            else d == c
  {
    if slot in w.core.sessions {
      var s := w.core.sessions[slot];
      assert Frames(s, [Snapshot]) == [Frame(s.id, s.epoch, s.next, Snapshot)];
    }
  }

  /** Sessions that differ have stream names that differ. */
  lemma {:induction false} NamesDiffer(a: Slot, b: Slot)
    ensures SessionName(a) == SessionName(b) ==> a == b
  {
    var x, y := SessionName(a), SessionName(b);
    assert |"session:"| == 8;
    assert x[8] == (if a.agent.CodexDesktop? then 'c' else 'z');
    assert y[8] == (if b.agent.CodexDesktop? then 'c' else 'z');
    if a.agent == b.agent {
      var n := |x| - |a.native|;
      assert x[n..] == a.native && y[n..] == b.native;
    }
  }
}
