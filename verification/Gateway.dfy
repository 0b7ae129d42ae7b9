/** The write-command gateway (apps/bridge/src/commands/gateway.rs) and the receipt rows it keeps
    (apps/bridge/src/local_store/mod.rs). */
module Gateway {
  import opened Wrappers

  // ---------------------------------------------------------------------------
  // Receipts
  // ---------------------------------------------------------------------------

  datatype Code =
    | DeviceOffline | CapabilityUnsupported | ControlReadOnly
    | DuplicateRequestMismatch | InternalError | StaleTurn | UnknownOutcome | OtherCode(name: string)

  datatype ReceiptState = DispatchedToCodex | Completed | Rejected(code: Code) | OutcomeUnknown

  datatype StoredState =
    | StoredReceived | StoredAccepted | StoredDispatched | StoredCompleted | StoredRejected | StoredUnknown

  const ACCEPTED := "ACCEPTED_BY_BRIDGE"

  function StatusStr(s: ReceiptState): string {
    match s
    case DispatchedToCodex => "DISPATCHED_TO_CODEX"
    case Completed => "COMPLETED"
    case Rejected(_) => "REJECTED"
    case OutcomeUnknown => "OUTCOME_UNKNOWN"
  }

  function StoredOf(status: string): StoredState {
    if status == "RECEIVED" then StoredReceived
    else if status == "DISPATCHED_TO_CODEX" then StoredDispatched
    else if status == "COMPLETED" then StoredCompleted
    else if status == "REJECTED" then StoredRejected
    else if status == "OUTCOME_UNKNOWN" then StoredUnknown
    else StoredAccepted
  }

  predicate IsTerminal(s: ReceiptState) {
    s.Completed? || s.Rejected? || s.OutcomeUnknown?
  }

  /** The state a receipt is read back as; a rejection's code is not stored. */
  function Stored(s: ReceiptState): StoredState {
    match s
    case DispatchedToCodex => StoredDispatched
    case Completed => StoredCompleted
    case Rejected(_) => StoredRejected
    case OutcomeUnknown => StoredUnknown
  }

  lemma {:induction false} StatusRoundTrip(s: ReceiptState)
    ensures StoredOf(StatusStr(s)) == Stored(s)
    ensures StoredOf(ACCEPTED) == StoredAccepted
  {
    assert "COMPLETED"[0] == 'C' && "DISPATCHED_TO_CODEX"[0] == 'D' && "OUTCOME_UNKNOWN"[0] == 'O';
    assert "REJECTED"[2] == 'J' && "RECEIVED"[2] == 'C' && ACCEPTED[0] == 'A';
  }

  // ---------------------------------------------------------------------------
  // Requests
  // ---------------------------------------------------------------------------

  type RequestId = nat

  datatype Payload =
    | StartTurn | Steer | Interrupt | AnswerQuestion | SubmitApproval | UpdateSettings
    | QueueNextTurn | CancelQueue | PauseQueue | StopBackgroundCommand | StopAllBackgroundCommands

  datatype Operation = QueueOperation | DesktopOperation(name: string)

  datatype Request = Request(id: RequestId, zcode: bool, operation: Operation, payload: Payload, digest: string,
                             expectedTurn: Option<string>, expectedRevision: Option<nat>)

  datatype Capabilities = Capabilities(supported: set<Operation>, readOnly: bool)

  datatype Snapshot = Snapshot(currentTurn: Option<string>, revision: nat)

  /** Admission, before anything is stored. */
  function Gate(req: Request, closed: bool, caps: Capabilities): Option<Code> {
    if closed then Some(DeviceOffline)
    else if req.zcode && !req.payload.AnswerQuestion? && !req.payload.SubmitApproval? then Some(CapabilityUnsupported)
    else if req.operation != QueueOperation && req.operation !in caps.supported then
      Some(if caps.readOnly then ControlReadOnly else CapabilityUnsupported)
    else None
  }

  /** A command is admitted exactly if the gate is open, a ZCode session is only answered, and the Desktop
      supports the operation or the queue keeps it; and each refusal has its code. */
  lemma {:induction false} GateExactly(req: Request, closed: bool, caps: Capabilities)
    ensures var answers := req.payload.AnswerQuestion? || req.payload.SubmitApproval?;
            var supported := req.operation == QueueOperation || req.operation in caps.supported;
            && (Gate(req, closed, caps) == None <==> !closed && (req.zcode ==> answers) && supported)
            && (Gate(req, closed, caps) == Some(DeviceOffline) <==> closed)
            && (Gate(req, closed, caps) == Some(ControlReadOnly) <==>
                  !closed && (req.zcode ==> answers) && !supported && caps.readOnly)
            && (Gate(req, closed, caps) == Some(CapabilityUnsupported) <==>
                  !closed && ((req.zcode && !answers) || (!supported && !caps.readOnly)))
  {
  }

  predicate NeedsSnapshot(req: Request) {
    req.expectedTurn.Some? || req.expectedRevision.Some? || req.payload.QueueNextTurn?
  }

  /** An interrupt is bound to its turn and tolerates a moved revision. */
  predicate PermitsDrift(req: Request, currentTurn: Option<string>) {
    req.payload.Interrupt? && req.expectedTurn.Some? && req.expectedTurn == currentTurn
  }

  /** The code the command is rejected with, if its preconditions do not hold. */
  function Precondition(req: Request, snapshot: Result<Snapshot, Code>): Option<Code> {
    if !NeedsSnapshot(req) then None
    else match snapshot
      case Err(code) => Some(code)
      case Ok(s) =>
        if req.expectedRevision.Some? && req.expectedRevision.value != s.revision && !PermitsDrift(req, s.currentTurn)
        then Some(StaleTurn)
        else if req.expectedTurn.Some? && s.currentTurn != req.expectedTurn then Some(StaleTurn)
        else None
  }

  /** A command goes on exactly if the turn it expects is the current one and, unless it is an interrupt
      that names its turn, the revision it expects is the current one too. */
  lemma {:induction false} PreconditionHoldsExactly(req: Request, s: Snapshot)
    ensures Precondition(req, Ok(s)).None? <==>
              && (req.expectedTurn.Some? ==> req.expectedTurn == s.currentTurn)
              && (req.expectedRevision.Some? ==>
                    req.expectedRevision == Some(s.revision) || (req.payload.Interrupt? && req.expectedTurn.Some?))
  {
  }

  /** Without a snapshot a command goes on exactly if it expects nothing and is not to be queued; else it is
      rejected with the reason the snapshot is missing. */
  lemma {:induction false} PreconditionWithoutSnapshot(req: Request, code: Code)
    ensures Precondition(req, Err(code)) ==
              if req.expectedTurn.None? && req.expectedRevision.None? && req.payload != QueueNextTurn then None else Some(code)
  {
  }

  predicate IsLocal(p: Payload) {
    p.QueueNextTurn? || p.CancelQueue? || p.PauseQueue?
  }

  /** The terminal state a command ends in right after its dispatch, None if the executor streams
      receipts. */
  function DispatchEnd(req: Request, failure: Option<Code>): Option<ReceiptState> {
    match failure
    case None => if IsLocal(req.payload) then Some(Completed) else None
    case Some(code) =>
      if !IsLocal(req.payload) && code == UnknownOutcome then Some(OutcomeUnknown) else Some(Rejected(code))
  }

  // ---------------------------------------------------------------------------
  // Receipt rows
  // ---------------------------------------------------------------------------

  datatype Row = Row(digest: string, status: string)

  type Rows = map<RequestId, Row>

  /** How a transaction ends; a failing commit may still have been made. */
  datatype Io = Works | Fails | FailsCommitted

  datatype RecordOutcome = Inserted | Existing | Mismatch | StoreFailed

  function RecordResult(rows: Rows, req: Request, io: Io): RecordOutcome {
    if !io.Works? then StoreFailed
    else if req.id !in rows then Inserted
    else if rows[req.id].digest == req.digest then Existing
    else Mismatch
  }

  function RecordRows(rows: Rows, req: Request, io: Io): Rows {
    if req.id in rows || io.Fails? then rows else rows[req.id := Row(req.digest, ACCEPTED)]
  }

  function UpdateRows(rows: Rows, id: RequestId, status: string, works: bool): Rows {
    if works && id in rows then rows[id := rows[id].(status := status)] else rows
  }

  function ReadState(rows: Rows, id: RequestId, works: bool): StoredState {
    if works && id in rows then StoredOf(rows[id].status) else StoredAccepted
  }

  class ReceiptStore {
    var rows: Rows

    constructor ()
      ensures rows == map[]
    {
      rows := map[];
    }

    method RecordReceipt(req: Request, io: Io) returns (outcome: RecordOutcome)
      modifies this
      ensures rows == RecordRows(old(rows), req, io) && outcome == RecordResult(old(rows), req, io)
    {
      if io.Fails? {
        return StoreFailed;
      }
      if req.id in rows {
        if io.FailsCommitted? {
          return StoreFailed;
        }
        return if rows[req.id].digest != req.digest then Mismatch else Existing;
      }
      rows := rows[req.id := Row(req.digest, ACCEPTED)];
      return if io.Works? then Inserted else StoreFailed;
    }

    /** Whether there was a row to change, unless the write fails. */
    method UpdateReceiptStatus(id: RequestId, status: string, works: bool) returns (changed: Option<bool>)
      modifies this
      ensures rows == UpdateRows(old(rows), id, status, works)
      ensures changed == if works then Some(id in old(rows)) else None
    {
      if !works {
        return None;
      }
      if id in rows {
        rows := rows[id := rows[id].(status := status)];
        return Some(true);
      }
      return Some(false);
    }
  }

  // ---------------------------------------------------------------------------
  // The receipts one command's channel carries
  // ---------------------------------------------------------------------------

  predicate NoTerminal(states: seq<ReceiptState>) {
    forall i :: 0 <= i < |states| ==> !IsTerminal(states[i])
  }

  /** Exactly one terminal state, and it is the last. */
  predicate EndsOnce(states: seq<ReceiptState>) {
    states != [] && IsTerminal(states[|states| - 1]) && NoTerminal(states[..|states| - 1])
  }

  /** What is forwarded when the executor's stream carries `receipts` and then ends. */
  function Forwarded(receipts: seq<ReceiptState>): (sent: seq<ReceiptState>)
    decreases |receipts|
  {
    if receipts == [] then [OutcomeUnknown]
    else if IsTerminal(receipts[0]) then [receipts[0]]
    else [receipts[0]] + Forwarded(receipts[1..])
  }

  /** Whatever the executor does, the channel ends once: a stream that ends early is closed by
      OUTCOME_UNKNOWN, and nothing follows a terminal state. */
  lemma {:induction false} ForwardedEndsOnce(receipts: seq<ReceiptState>)
    ensures EndsOnce(Forwarded(receipts))
    decreases |receipts|
  {
    if receipts != [] && !IsTerminal(receipts[0]) {
      var rest := Forwarded(receipts[1..]);
      ForwardedEndsOnce(receipts[1..]);
      assert ([receipts[0]] + rest)[..|rest|] == [receipts[0]] + rest[..|rest| - 1];
    }
  }

  /** A stream that ends early, and one that ends as it should, are passed on unchanged. */
  lemma {:induction false} ForwardedKeepsStream(receipts: seq<ReceiptState>)
    ensures NoTerminal(receipts) ==> Forwarded(receipts) == receipts + [OutcomeUnknown]
    decreases |receipts|
  {
    if receipts != [] && NoTerminal(receipts) {
      var rest := receipts[1..];
      ForwardedKeepsStream(rest);
      assert receipts == [receipts[0]] + rest;
    }
  }

  /** A stream is passed on up to its first terminal receipt, and nothing of what follows it. */
  lemma {:induction false} ForwardedStopsAtEnd(receipts: seq<ReceiptState>, end: ReceiptState, more: seq<ReceiptState>)
    requires NoTerminal(receipts) && IsTerminal(end)
    ensures Forwarded(receipts + [end] + more) == receipts + [end]
    decreases |receipts|
  {
    var stream := receipts + [end] + more;
    if receipts == [] {
      assert stream[0] == end;
    } else {
      var rest := receipts[1..];
      ForwardedStopsAtEnd(rest, end, more);
      assert stream[1..] == rest + [end] + more;
      assert receipts == [receipts[0]] + rest;
    }
  }

  /** The first receipt that ends the stream is a completion. */
  predicate CompletesFirst(receipts: seq<ReceiptState>) {
    exists i :: 0 <= i < |receipts| && receipts[i].Completed? && NoTerminal(receipts[..i])
  }

  predicate EndsAt(receipts: seq<ReceiptState>, i: nat)
    requires i < |receipts|
  {
    IsTerminal(receipts[i]) && NoTerminal(receipts[..i])
  }

  lemma {:induction false} FirstTerminal(receipts: seq<ReceiptState>) returns (i: nat)
    ensures i <= |receipts| && NoTerminal(receipts[..i])
    ensures i < |receipts| ==> EndsAt(receipts, i)
    ensures forall j :: 0 <= j < |receipts| && EndsAt(receipts, j) ==> j == i
  {
    i := 0;
    while i < |receipts| && !IsTerminal(receipts[i])
      invariant i <= |receipts| && forall j :: 0 <= j < i ==> !IsTerminal(receipts[j])
    {
      i := i + 1;
    }
    forall j | i < j < |receipts| ensures !EndsAt(receipts, j) {
      assert receipts[..j][i] == receipts[i];
    }
  }

  lemma {:induction false} ForwardedCompletes(receipts: seq<ReceiptState>)
    ensures Completed in Forwarded(receipts) <==> CompletesFirst(receipts)
  {
    var i := FirstTerminal(receipts);
    if i < |receipts| {
      assert EndsAt(receipts, i);
      ForwardedStopsAtEnd(receipts[..i], receipts[i], receipts[i + 1..]);
      assert receipts == receipts[..i] + [receipts[i]] + receipts[i + 1..];
      CompletesFirstAt(receipts, i);
      assert Completed in receipts[..i] + [receipts[i]] <==> receipts[i] == Completed;
    } else {
      assert receipts[..i] == receipts;
      ForwardedKeepsStream(receipts);
    }
  }

  lemma {:induction false} CompletesFirstAt(receipts: seq<ReceiptState>, i: nat)
    requires i < |receipts| && EndsAt(receipts, i)
    requires forall j :: 0 <= j < |receipts| && EndsAt(receipts, j) ==> j == i
    ensures CompletesFirst(receipts) <==> receipts[i] == Completed
  {
    if CompletesFirst(receipts) {
      var j :| 0 <= j < |receipts| && receipts[j].Completed? && NoTerminal(receipts[..j]);
      assert EndsAt(receipts, j);
    }
  }

  /** `done` was forwarded of the first `i` receipts; nothing more is to come after a terminal one. */
  ghost predicate ForwardedSoFar(receipts: seq<ReceiptState>, i: nat, terminal: bool, done: seq<ReceiptState>) {
    i <= |receipts| && Forwarded(receipts) == if terminal then done else done + Forwarded(receipts[i..])
  }

  lemma {:induction false} NothingForwarded(receipts: seq<ReceiptState>)
    ensures ForwardedSoFar(receipts, 0, false, [])
  {
    assert receipts[0..] == receipts;
  }

  lemma {:induction false} ForwardNext(receipts: seq<ReceiptState>, i: nat, done: seq<ReceiptState>)
    requires ForwardedSoFar(receipts, i, false, done) && i < |receipts|
    ensures ForwardedSoFar(receipts, i + 1, IsTerminal(receipts[i]), done + [receipts[i]])
  {
    assert receipts[i..][1..] == receipts[i + 1..];
  }

  lemma {:induction false} ForwardEnd(receipts: seq<ReceiptState>, done: seq<ReceiptState>)
    requires ForwardedSoFar(receipts, |receipts|, false, done)
    ensures Forwarded(receipts) == done + [OutcomeUnknown]
  {
  }

  datatype Answer = Accepted | Replayed(state: StoredState) | Refused(code: Code)

  /** The states an accepted command's channel carries. */
  function Outcome(req: Request, snapshot: Result<Snapshot, Code>, failure: Option<Code>, receipts: seq<ReceiptState>)
    : seq<ReceiptState>
  {
    if Precondition(req, snapshot).Some? then [Rejected(Precondition(req, snapshot).value)]
    else if DispatchEnd(req, failure).Some? then [DispatchEnd(req, failure).value]
    else Forwarded(receipts)
  }

  lemma {:induction false} OutcomeEndsOnce(req: Request, snapshot: Result<Snapshot, Code>, failure: Option<Code>,
                                           receipts: seq<ReceiptState>)
    ensures EndsOnce(Outcome(req, snapshot, failure, receipts))
  {
    ForwardedEndsOnce(receipts);
  }

  /** What an accepted command ends in: rejected if its precondition fails or its dispatch does, unknown only
      if the executor itself cannot tell, completed only if a queue operation was carried out or the executor
      says so. */
  lemma {:induction false} OutcomeExactly(req: Request, snapshot: Result<Snapshot, Code>, failure: Option<Code>,
                                          receipts: seq<ReceiptState>)
    ensures var out := Outcome(req, snapshot, failure, receipts);
            var queued := req.payload.QueueNextTurn? || req.payload.CancelQueue? || req.payload.PauseQueue?;
            var stale := Precondition(req, snapshot);
            && (Completed in out <==> stale.None? && failure.None? && (queued || CompletesFirst(receipts)))
            && (stale.Some? ==> out == [Rejected(stale.value)])
            && (stale.None? && failure.Some? ==>
                  out == if failure.value == UnknownOutcome && !queued then [OutcomeUnknown] else [Rejected(failure.value)])
            && (stale.None? && failure.None? && !queued ==> out == Forwarded(receipts))
  {
    ForwardedCompletes(receipts);
  }

  lemma {:induction false} OneDelivered(sent: seq<(RequestId, ReceiptState)>, rows: Rows, id: RequestId, s: ReceiptState,
                                       works: nat -> bool)
    requires id in rows
    ensures Delivered(sent, rows, id, [s], works, sent + [(id, s)], UpdateRows(rows, id, StatusStr(s), works(0)))
  {
    DeliveredNext(sent, rows, id, [], works, sent, rows, s);
    assert sent + For(id, []) == sent;
    assert [] + [s] == [s];
  }

  /** The commands in flight, and what their callers were sent. */
  class CommandGateway {
    const store: ReceiptStore
    var closed: bool
    var inflight: set<RequestId>
    var sent: seq<(RequestId, ReceiptState)>
    var executed: seq<RequestId>

    constructor (store: ReceiptStore)
      ensures this.store == store && !closed && inflight == {} && sent == [] && executed == []
    {
      this.store := store;
      closed, inflight, sent, executed := false, {}, [], [];
    }

    /** One submission with nothing else going on. What the outside world answers is passed in: the
        transaction's end, whether the row can be read, the session's snapshot, whether the local
        operation or the executor fails, the receipts the executor streams, and which of the status writes,
        counted from 0, work. */
    method Submit(req: Request, caps: Capabilities, io: Io, readable: bool, snapshot: Result<Snapshot, Code>,
                  failure: Option<Code>, receipts: seq<ReceiptState>, works: nat -> bool) returns (answer: Answer)
      modifies this, store
      ensures closed == old(closed)
      ensures Gate(req, closed, caps).Some? ==>
                answer == Refused(Gate(req, closed, caps).value) && Untouched(old(store.rows), old(sent), old(executed))
      ensures Gate(req, closed, caps).None? && RecordResult(old(store.rows), req, io).Existing? ==>
                answer == Replayed(ReadState(store.rows, req.id, readable)) && Untouched(old(store.rows), old(sent), old(executed))
      ensures Gate(req, closed, caps).None? && RecordResult(old(store.rows), req, io).Mismatch? ==>
                answer == Refused(DuplicateRequestMismatch) && Untouched(old(store.rows), old(sent), old(executed))
      ensures Gate(req, closed, caps).None? && RecordResult(old(store.rows), req, io).StoreFailed? ==>
                answer == Refused(InternalError) && Untouched(RecordRows(old(store.rows), req, io), old(sent), old(executed))
      ensures Gate(req, closed, caps).None? && RecordResult(old(store.rows), req, io).Inserted? ==>
                && answer == Accepted
                && Delivered(old(sent), RecordRows(old(store.rows), req, io), req.id,
                             Outcome(req, snapshot, failure, receipts), works, sent, store.rows)
                && executed == old(executed) + (if Precondition(req, snapshot).None? then [req.id] else [])
                && inflight == old(inflight) - {req.id}
    {
      var refusal := Gate(req, closed, caps);
      if refusal.Some? {
        return Refused(refusal.value);
      }
      var recorded := store.RecordReceipt(req, io);
      match recorded {
        case Existing => return Replayed(ReadState(store.rows, req.id, readable));
        case Mismatch => return Refused(DuplicateRequestMismatch);
        case StoreFailed => return Refused(InternalError);
        case Inserted =>
      }
      ghost var rows := store.rows;
      inflight := inflight + {req.id};
      var stale := Precondition(req, snapshot);
      if stale.Some? {
        FinalizeReceipt(req.id, Rejected(stale.value), works(0));
        OneDelivered(old(sent), rows, req.id, Rejected(stale.value), works);
        return Accepted;
      }
      executed := executed + [req.id];
      var end := DispatchEnd(req, failure);
      if end.Some? {
        FinalizeReceipt(req.id, end.value, works(0));
        OneDelivered(old(sent), rows, req.id, end.value, works);
      } else {
        Forward(req.id, receipts, works);
      }
      return Accepted;
    }

    ghost predicate Untouched(rows: Rows, sent: seq<(RequestId, ReceiptState)>, executed: seq<RequestId>)
      reads this, store
    {
      store.rows == rows && this.sent == sent && this.executed == executed
    }

    /** Stores and sends a terminal state, and ends the command. */
    method FinalizeReceipt(id: RequestId, state: ReceiptState, works: bool)
      modifies this, store
      ensures closed == old(closed) && executed == old(executed) && inflight == old(inflight) - {id}
      ensures sent == old(sent) + [(id, state)]
      ensures store.rows == UpdateRows(old(store.rows), id, StatusStr(state), works)
    {
      var _ := store.UpdateReceiptStatus(id, StatusStr(state), works);
      sent := sent + [(id, state)];
      inflight := inflight - {id};
    }

    /** Stores a state, then sends it. */
    method Deliver(id: RequestId, state: ReceiptState, works: bool)
      modifies this`sent, store
      ensures sent == old(sent) + [(id, state)]
      ensures store.rows == UpdateRows(old(store.rows), id, StatusStr(state), works)
    {
      var _ := store.UpdateReceiptStatus(id, StatusStr(state), works);
      sent := sent + [(id, state)];
    }

    /** The forwarding loop; the executor's stream carries `receipts` and then ends. A lost status write
        does not keep a receipt from the caller. */
    method Forward(id: RequestId, receipts: seq<ReceiptState>, works: nat -> bool)
      requires id in store.rows
      modifies this`sent, this`inflight, store
      ensures inflight == old(inflight) - {id}
      ensures Delivered(old(sent), old(store.rows), id, Forwarded(receipts), works, sent, store.rows)
    {
      var terminal := false;
      var i: nat := 0;
      ghost var done: seq<ReceiptState> := [];
      NothingForwarded(receipts);
      while i < |receipts| && !terminal
        modifies this`sent, store
        invariant Delivered(old(sent), old(store.rows), id, done, works, sent, store.rows)
        invariant terminal || |done| == i
        invariant ForwardedSoFar(receipts, i, terminal, done)
      {
        var receipt := receipts[i];
        terminal := receipt.Completed? || receipt.Rejected? || receipt.OutcomeUnknown?;
        ForwardNext(receipts, i, done);
        DeliveredNext(old(sent), old(store.rows), id, done, works, sent, store.rows, receipt);
        Deliver(id, receipt, works(i));
        done := done + [receipt];
        i := i + 1;
      }
      if !terminal {
        ForwardEnd(receipts, done);
        DeliveredNext(old(sent), old(store.rows), id, done, works, sent, store.rows, OutcomeUnknown);
        Deliver(id, OutcomeUnknown, works(i));
        done := done + [OutcomeUnknown];
      }
      assert done == Forwarded(receipts);
      inflight := inflight - {id};
    }

    /** Takes no new command, and ends every command in flight with OUTCOME_UNKNOWN; `failing` are those
        whose status cannot be written. */
    method GracefulShutdown(failing: set<RequestId>) returns (finalized: seq<RequestId>)
      modifies this, store
      ensures closed && inflight == {} && executed == old(executed)
      ensures forall id :: id in finalized <==> id in old(inflight)
      ensures sent == old(sent) + seq(|finalized|, i requires 0 <= i < |finalized| => (finalized[i], OutcomeUnknown))
      ensures store.rows == AllUnknown(old(store.rows), old(inflight) - failing)
    {
      closed := true;
      var pending := inflight;
      inflight := {};
      finalized := [];
      while pending != {}
        invariant closed && inflight == {} && executed == old(executed)
        invariant pending <= old(inflight)
        invariant forall id :: id in finalized <==> id in old(inflight) && id !in pending
        invariant sent == old(sent) + seq(|finalized|, i requires 0 <= i < |finalized| => (finalized[i], OutcomeUnknown))
        invariant store.rows == AllUnknown(old(store.rows), old(inflight) - pending - failing)
        decreases |pending|
      {
        var id :| id in pending;
        pending := pending - {id};
        var _ := store.UpdateReceiptStatus(id, StatusStr(OutcomeUnknown), id !in failing);
        sent := sent + [(id, OutcomeUnknown)];
        finalized := finalized + [id];
      }
    }
  }

  /** The rows after each of `states` was stored for `id` in turn, as far as the writes worked. */
  function Written(rows: Rows, id: RequestId, states: seq<ReceiptState>, works: nat -> bool): Rows {
    if states == [] then rows
    else
      var last := |states| - 1;
      UpdateRows(Written(rows, id, states[..last], works), id, StatusStr(states[last]), works(last))
  }

  /** The last write that worked stands; with none the row is as it was. */
  lemma {:induction false} LastWriteStands(rows: Rows, id: RequestId, states: seq<ReceiptState>, works: nat -> bool)
    requires id in rows
    ensures forall k :: 0 <= k < |states| && works(k) && (forall j :: k < j < |states| ==> !works(j)) ==>
              Written(rows, id, states, works) == rows[id := rows[id].(status := StatusStr(states[k]))]
    ensures (forall j :: 0 <= j < |states| ==> !works(j)) ==> Written(rows, id, states, works) == rows
    decreases |states|
  {
    if states != [] {
      LastWriteStands(rows, id, states[..|states| - 1], works);
      WrittenKeepsOthers(rows, id, states[..|states| - 1], works);
    }
  }

  lemma {:induction false} WrittenKeepsOthers(rows: Rows, id: RequestId, states: seq<ReceiptState>, works: nat -> bool)
    requires id in rows
    ensures id in Written(rows, id, states, works)
    ensures forall status: string :: Written(rows, id, states, works)[id := rows[id].(status := status)]
                                  == rows[id := rows[id].(status := status)]
    ensures Written(rows, id, states, works)[id].digest == rows[id].digest
    decreases |states|
  {
    if states != [] {
      WrittenKeepsOthers(rows, id, states[..|states| - 1], works);
    }
  }

  /** Each of `states` was sent for `id`, and stored if its write worked. */
  ghost predicate Delivered(sentBefore: seq<(RequestId, ReceiptState)>, rowsBefore: Rows, id: RequestId,
                            states: seq<ReceiptState>, works: nat -> bool, sent: seq<(RequestId, ReceiptState)>, rows: Rows) {
    id in rowsBefore && sent == sentBefore + For(id, states) && rows == Written(rowsBefore, id, states, works)
  }

  lemma {:induction false} DeliveredNext(sentBefore: seq<(RequestId, ReceiptState)>, rowsBefore: Rows, id: RequestId,
                                         states: seq<ReceiptState>, works: nat -> bool,
                                         sent: seq<(RequestId, ReceiptState)>, rows: Rows, s: ReceiptState)
    requires Delivered(sentBefore, rowsBefore, id, states, works, sent, rows)
    ensures Delivered(sentBefore, rowsBefore, id, states + [s], works, sent + [(id, s)],
                      UpdateRows(rows, id, StatusStr(s), works(|states|)))
  {
    ForAppend(id, states, s);
    assert (states + [s])[..|states|] == states;
  }

  function AllUnknown(rows: Rows, ids: set<RequestId>): (after: Rows)
    ensures after.Keys == rows.Keys
    ensures forall id <- rows :: id in ids ==> after[id] == Row(rows[id].digest, "OUTCOME_UNKNOWN")
    ensures forall id <- rows :: id !in ids ==> after[id] == rows[id]
  {
    map id | id in rows :: if id in ids then rows[id].(status := StatusStr(OutcomeUnknown)) else rows[id]
  }

  function For(id: RequestId, states: seq<ReceiptState>): seq<(RequestId, ReceiptState)> {
    if states == [] then [] else For(id, states[..|states| - 1]) + [(id, states[|states| - 1])]
  }

  lemma {:induction false} ForAppend(id: RequestId, states: seq<ReceiptState>, s: ReceiptState)
    ensures For(id, states + [s]) == For(id, states) + [(id, s)]
  {
    assert (states + [s])[..|states|] == states;
  }
}
