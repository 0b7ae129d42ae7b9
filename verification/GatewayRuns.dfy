/** Concurrent submissions, crashes and restarts of the gateway: one step is one transaction, one
    channel operation or one call into the Desktop. Only the receipt rows survive a restart. */
module GatewayRuns {
  import opened Wrappers
  import opened Gateway

  // ---------------------------------------------------------------------------
  // The transition system
  // ---------------------------------------------------------------------------

  type Tid = nat

  /** Where a submission is. A forwarding submission is its forwarder task. It is entered in the table of
      commands in flight when it leaves Registering, and takes itself out when it leaves Ending. */
  datatype Pc =
    | Gating | Recording | Replaying
    | Registering | Validating | Dispatching
    | Storing(state: ReceiptState) | Sending(state: ReceiptState) | Forwarding
    | Ending(state: ReceiptState) | Finished(state: ReceiptState)
    | Answered(answer: Answer)

  /** How far a shutdown is with a command it took out of the table. */
  datatype Drain = NotDrained | ToStore | ToSend | Told

  /** What a submission was told from outside: why its precondition failed, how its dispatch failed if it was
      made, the receipts it was streamed, and whether the stream has ended. */
  datatype Facts = Facts(stale: Option<Code>, dispatched: Option<Option<Code>>, received: seq<ReceiptState>, streamEnded: bool)

  const NOTHING := Facts(None, None, [], false)

  /** `registered`: the table has the command. `lost`: the command's own last status write failed.
      `overwritten`: the shutdown wrote its status after the command had written its last one. No step
      reads the last three. */
  datatype Thread = Thread(req: Request, pc: Pc, channel: seq<ReceiptState>, registered: bool, drain: Drain,
                           lost: bool, overwritten: bool, facts: Facts)

  datatype Execution = Execution(tid: Tid, id: RequestId, digest: string)

  /** `owner` records whose insertion made a request's row; no step reads it. */
  datatype World = World(rows: Rows, threads: map<Tid, Thread>, nextTid: Tid, execs: seq<Execution>,
                         owner: map<RequestId, Tid>, closed: bool)

  /** The shutdown closes the gate, takes all commands out of the table at once, and then stores and sends
      for each of them, wherever the command itself has got to. */
  datatype Action =
    | Arrive(req: Request)
    | PassGate(tid: Tid, caps: Capabilities)
    | Record(tid: Tid, io: Io)
    | Read(tid: Tid, works: bool)
    | Register(tid: Tid)
    | Validate(tid: Tid, snapshot: Result<Snapshot, Code>)
    | Dispatch(tid: Tid, failure: Option<Code>)
    | Receive(tid: Tid, receipt: Option<ReceiptState>)
    | Store(tid: Tid, works: bool)
    | Send(tid: Tid)
    | Remove(tid: Tid)
    | Close
    | DrainTable
    | ShutdownStore(tid: Tid, works: bool)
    | ShutdownSend(tid: Tid)
    | Restart

  const START := World(map[], map[], 0, [], map[], false)

  /** The submission's insertion was the one that made the row. */
  predicate Owning(pc: Pc) {
    !pc.Gating? && !pc.Recording? && !pc.Replaying? && !pc.Answered?
  }

  /** The submission has sent its terminal state. */
  predicate Ended(pc: Pc) {
    pc.Ending? || pc.Finished?
  }

  /** The submission has stored its terminal state. */
  predicate Concluded(pc: Pc) {
    Ended(pc) || (pc.Sending? && IsTerminal(pc.state))
  }

  predicate Enabled(w: World, a: Action) {
    match a
    case Arrive(_) => true
    case Close => true
    case DrainTable => w.closed
    case Restart => true
    case _ => a.tid in w.threads && ThreadEnabled(w.threads[a.tid], a)
  }

  predicate ThreadEnabled(t: Thread, a: Action) {
    match a
    case PassGate(_, _) => t.pc.Gating?
    case Record(_, _) => t.pc.Recording?
    case Read(_, _) => t.pc.Replaying?
    case Register(_) => t.pc.Registering?
    case Validate(_, _) => t.pc.Validating?
    case Dispatch(_, _) => t.pc.Dispatching?
    case Receive(_, _) => t.pc.Forwarding?
    case Store(_, _) => t.pc.Storing?
    case Send(_) => t.pc.Sending?
    case Remove(_) => t.pc.Ending?
    case ShutdownStore(_, _) => t.drain.ToStore?
    case ShutdownSend(_) => t.drain.ToSend?
    case _ => false
  }

  function NewThread(req: Request): Thread {
    Thread(req, Gating, [], false, NotDrained, false, false, NOTHING)
  }

  function Recorded(req: Request, outcome: RecordOutcome): Pc {
    match outcome
    case Inserted => Registering
    case Existing => Replaying
    case Mismatch => Answered(Refused(DuplicateRequestMismatch))
    case StoreFailed => Answered(Refused(InternalError))
  }

  /** The acting thread after its step. */
  function Moved(w: World, t: Thread, a: Action): Thread
    requires ThreadEnabled(t, a)
  {
    match a
    case PassGate(_, caps) =>
      var refusal := Gate(t.req, w.closed, caps);
      t.(pc := if refusal.Some? then Answered(Refused(refusal.value)) else Recording)
    case Record(_, io) => t.(pc := Recorded(t.req, RecordResult(w.rows, t.req, io)))
    case Read(_, works) => t.(pc := Answered(Replayed(ReadState(w.rows, t.req.id, works))))
    case Register(_) => t.(pc := Validating, registered := true)
    case Validate(_, snapshot) =>
      var stale := Precondition(t.req, snapshot);
      t.(pc := if stale.Some? then Storing(Rejected(stale.value)) else Dispatching, facts := t.facts.(stale := stale))
    case Dispatch(_, failure) =>
      var end := DispatchEnd(t.req, failure);
      t.(pc := if end.Some? then Storing(end.value) else Forwarding, facts := t.facts.(dispatched := Some(failure)))
    case Receive(_, receipt) =>
      t.(pc := Storing(if receipt.Some? then receipt.value else OutcomeUnknown),
         facts := if receipt.Some? then t.facts.(received := t.facts.received + [receipt.value])
                  else t.facts.(streamEnded := true))
    case Store(_, works) => t.(pc := Sending(t.pc.state), lost := !works)
    case Send(_) =>
      t.(channel := t.channel + [t.pc.state], pc := if IsTerminal(t.pc.state) then Ending(t.pc.state) else Forwarding)
    case Remove(_) => t.(pc := Finished(t.pc.state), registered := false)
    case ShutdownStore(_, works) => t.(drain := ToSend, overwritten := works && Concluded(t.pc))
    case ShutdownSend(_) => t.(drain := Told, channel := t.channel + [OutcomeUnknown])
  }

  /** The rows after the acting thread's step. */
  function RowsAfter(rows: Rows, t: Thread, a: Action): Rows
    requires ThreadEnabled(t, a)
  {
    match a
    case Record(_, io) => RecordRows(rows, t.req, io)
    case Store(_, works) => UpdateRows(rows, t.req.id, StatusStr(t.pc.state), works)
    case ShutdownStore(_, works) => UpdateRows(rows, t.req.id, StatusStr(OutcomeUnknown), works)
    case _ => rows
  }

  function Drained(t: Thread): Thread {
    if t.registered then t.(registered := false, drain := ToStore) else t
  }

  function Act(w: World, a: Action): World
    requires Enabled(w, a)
  {
    match a
    case Arrive(req) => w.(threads := w.threads[w.nextTid := NewThread(req)], nextTid := w.nextTid + 1)
    case Close => w.(closed := true)
    case DrainTable => w.(threads := map tid | tid in w.threads :: Drained(w.threads[tid]))
    case Restart => w.(threads := map[], closed := false)
    case _ =>
      var t := w.threads[a.tid];
      w.(rows := RowsAfter(w.rows, t, a),
         threads := w.threads[a.tid := Moved(w, t, a)],
         execs := if a.Dispatch? then w.execs + [Execution(a.tid, t.req.id, t.req.digest)] else w.execs,
         owner := if a.Record? && RecordResult(w.rows, t.req, a.io).Inserted? then w.owner[t.req.id := a.tid] else w.owner)
  }

  function Step(w: World, a: Action): World {
    if Enabled(w, a) then Act(w, a) else w
  }

  function From(w: World, run: seq<Action>): World {
    if run == [] then w else Step(From(w, run[..|run| - 1]), run[|run| - 1])
  }

  function After(run: seq<Action>): World {
    From(START, run)
  }

  // ---------------------------------------------------------------------------
  // Invariants
  // ---------------------------------------------------------------------------

  /** The row, if any, and the owner agree with one thread. */
  ghost predicate ThreadInv(w: World, tid: Tid, t: Thread) {
    var id := t.req.id;
    && tid < w.nextTid
    && (Owning(t.pc) <==> id in w.owner && w.owner[id] == tid)
    && (Owning(t.pc) ==> id in w.rows && w.rows[id].digest == t.req.digest)
    && (t.pc.Replaying? ==> id in w.rows && w.rows[id].digest == t.req.digest)
    && (t.pc.Answered? ==> AnswerInv(w.rows, t.req, t.pc.answer))
  }

  ghost predicate AnswerInv(rows: Rows, req: Request, answer: Answer) {
    match answer
    case Accepted => false
    case Replayed(_) => req.id in rows && rows[req.id].digest == req.digest
    case Refused(code) => code == DuplicateRequestMismatch ==> req.id in rows && rows[req.id].digest != req.digest
  }

  /** The submission has not reached its execution. */
  predicate Before(pc: Pc) {
    pc.Registering? || pc.Validating? || pc.Dispatching?
  }

  /** An execution was made by the owner of its request, under the digest stored with it. */
  ghost predicate ExecutionInv(w: World, e: Execution) {
    && e.id in w.owner && w.owner[e.id] == e.tid
    && e.id in w.rows && w.rows[e.id].digest == e.digest
    && (e.tid in w.threads ==> w.threads[e.tid].req.id == e.id && !Before(w.threads[e.tid].pc))
  }

  ghost predicate ThreadsInv(w: World) {
    forall tid <- w.threads :: ThreadInv(w, tid, w.threads[tid])
  }

  ghost predicate ExecsInv(w: World) {
    && (forall i :: 0 <= i < |w.execs| ==> ExecutionInv(w, w.execs[i]))
    && (forall i, j :: 0 <= i < j < |w.execs| ==> w.execs[i].id != w.execs[j].id)
  }

  ghost predicate OwnersInv(w: World) {
    forall id <- w.owner :: id in w.rows && w.owner[id] < w.nextTid
  }

  ghost predicate Inv(w: World) {
    ThreadsInv(w) && ExecsInv(w) && OwnersInv(w)
  }

  function Terminals(states: seq<ReceiptState>): nat {
    if states == [] then 0
    else Terminals(states[..|states| - 1]) + One(IsTerminal(states[|states| - 1]))
  }

  function One(b: bool): nat {
    if b then 1 else 0
  }

  /** One command's table entry and channel: the shutdown has only what the table had, and the channel
      carries one terminal state for the command's own end and one for being told of the shutdown. */
  ghost predicate CommandInv(t: Thread) {
    && (t.registered ==> Owning(t.pc) && !t.pc.Registering? && !t.pc.Finished? && t.drain.NotDrained?)
    && (!t.drain.NotDrained? ==> Owning(t.pc) && !t.pc.Registering? && !t.registered)
    && (t.overwritten ==> (t.drain.ToSend? || t.drain.Told?) && Concluded(t.pc))
    && (Ended(t.pc) ==> IsTerminal(t.pc.state))
    && Terminals(t.channel) == One(Ended(t.pc)) + One(t.drain.Told?)
    && (Ended(t.pc) && !t.drain.Told? ==> t.channel != [] && t.channel[|t.channel| - 1] == t.pc.state)
  }

  ghost predicate CommandsInv(w: World) {
    forall tid <- w.threads :: CommandInv(w.threads[tid])
  }

  /** What the row of a command says that has stored its terminal state. */
  ghost predicate StatusHolds(rows: Rows, t: Thread) {
    Concluded(t.pc) && (!t.lost || t.overwritten) ==>
      t.req.id in rows && rows[t.req.id].status == StatusStr(if t.overwritten then OutcomeUnknown else t.pc.state)
  }

  ghost predicate StatusInv(w: World, t: Thread) {
    StatusHolds(w.rows, t)
  }

  ghost predicate StatusesInv(w: World) {
    forall tid <- w.threads :: StatusInv(w, w.threads[tid])
  }

  // ---------------------------------------------------------------------------
  // Preservation
  // ---------------------------------------------------------------------------

  /** A step that keeps owners and executions and only changes statuses, in which thread `tid` stays on
      its side of ownership. */
  lemma {:induction false} MoveKeepsInv(w: World, v: World, tid: Tid)
    requires Inv(w) && tid in w.threads
    requires v.owner == w.owner && v.execs == w.execs && v.nextTid == w.nextTid
    requires tid in v.threads && v.threads == w.threads[tid := v.threads[tid]] && v.threads[tid].req == w.threads[tid].req
    requires DigestsKept(w.rows, v.rows)
    requires ThreadInv(v, tid, v.threads[tid])
    requires Before(v.threads[tid].pc) ==> Before(w.threads[tid].pc)
    ensures Inv(v)
  {
  }

  ghost predicate DigestsKept(before: Rows, after: Rows) {
    forall id <- before :: id in after && after[id].digest == before[id].digest
  }

  lemma {:induction false} ArriveKeepsInv(w: World, req: Request)
    requires Inv(w)
    ensures Inv(Act(w, Arrive(req)))
  {
    var v := Act(w, Arrive(req));
    forall i | 0 <= i < |v.execs| ensures ExecutionInv(v, v.execs[i]) {
      assert ExecutionInv(w, w.execs[i]);
    }
  }

  lemma {:induction false} InsertKeepsThreads(w: World, tid: Tid)
    requires Inv(w) && Enabled(w, Record(tid, Works)) && w.threads[tid].req.id !in w.rows
    ensures ThreadsInv(Act(w, Record(tid, Works)))
  {
    var v := Act(w, Record(tid, Works));
    forall other <- v.threads ensures ThreadInv(v, other, v.threads[other]) {
      assert ThreadInv(w, other, w.threads[other]);
    }
  }

  lemma {:induction false} InsertKeepsExecs(w: World, tid: Tid)
    requires Inv(w) && Enabled(w, Record(tid, Works)) && w.threads[tid].req.id !in w.rows
    ensures ExecsInv(Act(w, Record(tid, Works)))
  {
    var v := Act(w, Record(tid, Works));
    forall i | 0 <= i < |v.execs| ensures ExecutionInv(v, v.execs[i]) {
      assert ExecutionInv(w, w.execs[i]);
      assert ThreadInv(w, tid, w.threads[tid]);
    }
  }

  lemma {:induction false} RecordKeepsInv(w: World, tid: Tid, io: Io)
    requires Inv(w) && Enabled(w, Record(tid, io))
    ensures Inv(Act(w, Record(tid, io)))
  {
    var v := Act(w, Record(tid, io));
    assert ThreadInv(w, tid, w.threads[tid]);
    if RecordResult(w.rows, w.threads[tid].req, io).Inserted? {
      InsertKeepsThreads(w, tid);
      InsertKeepsExecs(w, tid);
    } else {
      MoveKeepsInv(w, v, tid);
    }
  }

  lemma {:induction false} DispatchKeepsInv(w: World, tid: Tid, failure: Option<Code>)
    requires Inv(w) && Enabled(w, Dispatch(tid, failure))
    ensures Inv(Act(w, Dispatch(tid, failure)))
  {
    var v := Act(w, Dispatch(tid, failure));
    var t := w.threads[tid];
    assert ThreadInv(w, tid, t);
    forall i | 0 <= i < |w.execs| ensures ExecutionInv(v, v.execs[i]) && v.execs[i].id != t.req.id {
      assert ExecutionInv(w, w.execs[i]);
    }
    forall other <- v.threads ensures ThreadInv(v, other, v.threads[other]) {
      assert ThreadInv(w, other, w.threads[other]);
    }
    assert ExecutionInv(v, v.execs[|w.execs|]);
  }

  /** A step of all threads or none that leaves each one's place alone. */
  lemma {:induction false} WideStepKeepsInv(w: World, v: World)
    requires Inv(w)
    requires v.rows == w.rows && v.owner == w.owner && v.execs == w.execs && v.nextTid == w.nextTid
    requires forall tid <- v.threads :: tid in w.threads && v.threads[tid].req == w.threads[tid].req
                                        && v.threads[tid].pc == w.threads[tid].pc
    ensures Inv(v)
  {
    forall i | 0 <= i < |v.execs| ensures ExecutionInv(v, v.execs[i]) {
      assert ExecutionInv(w, w.execs[i]);
    }
    forall tid <- v.threads ensures ThreadInv(v, tid, v.threads[tid]) {
      assert ThreadInv(w, tid, w.threads[tid]);
    }
  }

  /** The thread a step moves, if it moves one. */
  function Mover(a: Action): Option<Tid> {
    if a.Arrive? || a.Close? || a.DrainTable? || a.Restart? then None else Some(a.tid)
  }

  lemma {:induction false} StoredKeepsDigests(rows: Rows, t: Thread, a: Action)
    requires ThreadEnabled(t, a)
    ensures DigestsKept(rows, RowsAfter(rows, t, a))
  {
  }

  /** But for the two transactions, a step leaves a submission on its side of ownership, and answers it only
      as its row allows. */
  lemma {:induction false} MovedKeepsSide(w: World, t: Thread, a: Action)
    requires ThreadEnabled(t, a) && !a.Record? && !a.Dispatch?
    ensures var m := Moved(w, t, a);
            && m.req == t.req && (Owning(m.pc) <==> Owning(t.pc))
            && (Before(m.pc) ==> Before(t.pc)) && (m.pc.Replaying? ==> t.pc.Replaying?)
            && (m.pc.Answered? ==> m.pc == t.pc || (t.pc.Replaying? && m.pc.answer.Replayed?)
                                   || (m.pc.answer.Refused? && m.pc.answer.code != DuplicateRequestMismatch))
  {
  }

  lemma {:induction false} ThreadMoveKeepsInv(w: World, a: Action)
    requires Inv(w) && Enabled(w, a) && Mover(a).Some? && !a.Record? && !a.Dispatch?
    ensures Inv(Act(w, a))
  {
    var t, v := w.threads[a.tid], Act(w, a);
    assert ThreadInv(w, a.tid, t);
    StoredKeepsDigests(w.rows, t, a);
    MovedKeepsSide(w, t, a);
    MovedThreadInv(w, v, a.tid, t, v.threads[a.tid]);
    MoveKeepsInv(w, v, a.tid);
  }

  lemma {:induction false} MovedThreadInv(w: World, v: World, tid: Tid, t: Thread, m: Thread)
    requires ThreadInv(w, tid, t) && DigestsKept(w.rows, v.rows) && v.owner == w.owner && v.nextTid == w.nextTid
    requires m.req == t.req && (Owning(m.pc) <==> Owning(t.pc)) && (m.pc.Replaying? ==> t.pc.Replaying?)
    requires m.pc.Answered? ==> m.pc == t.pc || (t.pc.Replaying? && m.pc.answer.Replayed?)
                                || (m.pc.answer.Refused? && m.pc.answer.code != DuplicateRequestMismatch)
    ensures ThreadInv(v, tid, m)
  {
  }

  lemma {:induction false} MoverKeepsInv(w: World, a: Action)
    requires Inv(w) && Enabled(w, a) && Mover(a).Some?
    ensures Inv(Act(w, a))
  {
    if a.Record? {
      RecordKeepsInv(w, a.tid, a.io);
    } else if a.Dispatch? {
      DispatchKeepsInv(w, a.tid, a.failure);
    } else {
      ThreadMoveKeepsInv(w, a);
    }
  }

  lemma {:induction false} StepKeepsInv(w: World, a: Action)
    requires Inv(w)
    ensures Inv(Step(w, a))
  {
    if Enabled(w, a) {
      if Mover(a).Some? {
        MoverKeepsInv(w, a);
      } else if a.Arrive? {
        ArriveKeepsInv(w, a.req);
      } else {
        WideKeepsInv(w, a);
      }
    }
  }

  lemma {:induction false} WideKeepsInv(w: World, a: Action)
    requires Inv(w) && Enabled(w, a) && (a.Close? || a.DrainTable? || a.Restart?)
    ensures Inv(Act(w, a))
  {
    WideStepKeepsInv(w, Act(w, a));
  }

  // ----- table and channel of each command -----

  lemma {:induction false} TerminalsAppend(states: seq<ReceiptState>, s: ReceiptState)
    ensures Terminals(states + [s]) == Terminals(states) + One(IsTerminal(s))
  {
    assert (states + [s])[..|states|] == states;
  }

  lemma {:induction false} SendKeepsCommand(w: World, t: Thread, a: Action)
    requires CommandInv(t) && ThreadEnabled(t, a) && (a.Send? || a.ShutdownSend?)
    ensures CommandInv(Moved(w, t, a))
  {
    TerminalsAppend(t.channel, if a.Send? then t.pc.state else OutcomeUnknown);
  }

  lemma {:induction false} MoveKeepsCommand(w: World, t: Thread, a: Action)
    requires CommandInv(t) && ThreadEnabled(t, a)
    ensures CommandInv(Moved(w, t, a))
  {
    if a.Send? || a.ShutdownSend? {
      SendKeepsCommand(w, t, a);
    } else {
      assert Moved(w, t, a).channel == t.channel;
    }
  }

  lemma {:induction false} ArrivedThread(w: World, a: Action, tid: Tid)
    requires Enabled(w, a) && tid in Act(w, a).threads
    ensures tid in w.threads || (a.Arrive? && Act(w, a).threads[tid] == NewThread(a.req))
  {
  }

  lemma {:induction false} OtherKeepsCommand(w: World, a: Action, tid: Tid)
    requires Enabled(w, a) && Mover(a) != Some(tid) && tid in w.threads && tid in Act(w, a).threads
    requires CommandInv(w.threads[tid])
    ensures CommandInv(Act(w, a).threads[tid])
  {
    var t := w.threads[tid];
    if a.Arrive? && tid == w.nextTid {
      assert Act(w, a).threads[tid] == NewThread(a.req);
    } else {
      assert Act(w, a).threads[tid] == if a.DrainTable? then Drained(t) else t;
    }
  }

  lemma {:induction false} StepKeepsCommands(w: World, a: Action)
    requires CommandsInv(w)
    ensures CommandsInv(Step(w, a))
  {
    if Enabled(w, a) {
      var v := Act(w, a);
      forall tid <- v.threads ensures CommandInv(v.threads[tid]) {
        ArrivedThread(w, a, tid);
        if Mover(a) == Some(tid) {
          MoveKeepsCommand(w, w.threads[tid], a);
        } else if tid in w.threads {
          OtherKeepsCommand(w, a, tid);
        }
      }
    }
  }

  // ----- what a command sends, and why -----

  predicate IsQueued(req: Request) {
    req.payload.QueueNextTurn? || req.payload.CancelQueue? || req.payload.PauseQueue?
  }

  /** A state the submission may send, by what it was told. */
  predicate Backed(req: Request, f: Facts, s: ReceiptState) {
    if f.stale.Some? then s == Rejected(f.stale.value)
    else match f.dispatched
      case None => false
      case Some(Some(code)) => s == if code == UnknownOutcome && !IsQueued(req) then OutcomeUnknown else Rejected(code)
      case Some(None) =>
        if IsQueued(req) then s == Completed else s in f.received || (f.streamEnded && s == OutcomeUnknown)
  }

  /** The state it stores and sends next. */
  predicate Due(req: Request, f: Facts, s: ReceiptState) {
    && Backed(req, f, s)
    && (f.dispatched == Some(None) && !IsQueued(req) ==>
          if f.streamEnded then s == OutcomeUnknown && NoTerminal(f.received)
          else f.received != [] && s == f.received[|f.received| - 1] && NoTerminal(f.received[..|f.received| - 1]))
  }

  ghost predicate CauseInv(t: Thread) {
    && (forall s :: s in t.channel ==> Backed(t.req, t.facts, s) || (s == OutcomeUnknown && t.drain.Told?))
    && match t.pc
       case Storing(s) => Due(t.req, t.facts, s)
       case Sending(s) => Due(t.req, t.facts, s)
       case Ending(s) => Due(t.req, t.facts, s)
       case Finished(s) => Due(t.req, t.facts, s)
       case Forwarding => t.facts.stale.None? && t.facts.dispatched == Some(None) && !IsQueued(t.req)
                          && !t.facts.streamEnded && NoTerminal(t.facts.received)
       case _ => t.facts == NOTHING
  }

  ghost predicate CausesInv(w: World) {
    forall tid <- w.threads :: CauseInv(w.threads[tid])
  }

  /** What was sent stays backed when more is received. */
  lemma {:induction false} ReceiveKeepsCause(w: World, t: Thread, a: Action)
    requires CauseInv(t) && ThreadEnabled(t, a) && a.Receive?
    ensures CauseInv(Moved(w, t, a))
  {
    var m := Moved(w, t, a);
    if a.receipt.Some? {
      assert m.facts.received[..|t.facts.received|] == t.facts.received;
    }
  }

  lemma {:induction false} DispatchKeepsCause(w: World, t: Thread, a: Action)
    requires CauseInv(t) && ThreadEnabled(t, a) && (a.Validate? || a.Dispatch?)
    ensures CauseInv(Moved(w, t, a))
  {
  }

  lemma {:induction false} MoveKeepsCause(w: World, t: Thread, a: Action)
    requires CauseInv(t) && ThreadEnabled(t, a)
    ensures CauseInv(Moved(w, t, a))
  {
    if a.Receive? {
      ReceiveKeepsCause(w, t, a);
    } else if a.Validate? || a.Dispatch? {
      DispatchKeepsCause(w, t, a);
    } else if a.Send? {
      SendKeepsCause(w, t, a);
    } else {
      assert Moved(w, t, a).facts == t.facts;
    }
  }

  lemma {:induction false} SendKeepsCause(w: World, t: Thread, a: Action)
    requires CauseInv(t) && ThreadEnabled(t, a) && a.Send?
    ensures CauseInv(Moved(w, t, a))
  {
    var m := Moved(w, t, a);
    if m.pc.Forwarding? {
      assert t.facts.received == t.facts.received[..|t.facts.received| - 1] + [t.pc.state];
    }
  }

  lemma {:induction false} OtherKeepsCause(w: World, a: Action, tid: Tid)
    requires Enabled(w, a) && Mover(a) != Some(tid) && tid in w.threads && tid in Act(w, a).threads
    requires CommandInv(w.threads[tid]) && CauseInv(w.threads[tid])
    ensures CauseInv(Act(w, a).threads[tid])
  {
    var t := w.threads[tid];
    if a.Arrive? && tid == w.nextTid {
      assert Act(w, a).threads[tid] == NewThread(a.req);
    } else {
      assert Act(w, a).threads[tid] == if a.DrainTable? then Drained(t) else t;
    }
  }

  lemma {:induction false} StepKeepsCauses(w: World, a: Action)
    requires CommandsInv(w) && CausesInv(w)
    ensures CausesInv(Step(w, a))
  {
    if Enabled(w, a) {
      var v := Act(w, a);
      forall tid <- v.threads ensures CauseInv(v.threads[tid]) {
        ArrivedThread(w, a, tid);
        if Mover(a) == Some(tid) {
          MoveKeepsCause(w, w.threads[tid], a);
        } else if tid in w.threads {
          OtherKeepsCause(w, a, tid);
        }
      }
    }
  }

  // ----- the stored status -----

  /** A step changes the status of no row another thread owns. */
  lemma {:induction false} OtherRowKept(w: World, a: Action, tid: Tid)
    requires ThreadsInv(w) && CommandsInv(w) && Enabled(w, a) && Mover(a) != Some(tid)
    requires tid in w.threads && Owning(w.threads[tid].pc)
    ensures var id := w.threads[tid].req.id; id in w.rows && id in Act(w, a).rows && Act(w, a).rows[id] == w.rows[id]
  {
    assert ThreadInv(w, tid, w.threads[tid]);
    if Mover(a).Some? {
      assert ThreadInv(w, a.tid, w.threads[a.tid]) && CommandInv(w.threads[a.tid]);
    }
  }

  lemma {:induction false} WriteKeepsStatus(w: World, t: Thread, a: Action)
    requires StatusInv(w, t) && CommandInv(t) && ThreadEnabled(t, a) && (a.Store? || a.ShutdownStore?)
    requires t.req.id in w.rows
    ensures StatusHolds(RowsAfter(w.rows, t, a), Moved(w, t, a))
  {
  }

  lemma {:induction false} QuietKeepsStatus(w: World, t: Thread, a: Action)
    requires StatusInv(w, t) && ThreadEnabled(t, a) && !a.Store? && !a.ShutdownStore? && !a.Record?
    ensures StatusHolds(RowsAfter(w.rows, t, a), Moved(w, t, a))
  {
  }

  lemma {:induction false} MoverStatusKept(w: World, a: Action)
    requires ThreadsInv(w) && CommandsInv(w) && StatusesInv(w) && Enabled(w, a) && Mover(a).Some?
    ensures StatusInv(Act(w, a), Act(w, a).threads[a.tid])
  {
    var t := w.threads[a.tid];
    assert ThreadInv(w, a.tid, t) && CommandInv(t) && StatusInv(w, t);
    if a.Store? || a.ShutdownStore? {
      WriteKeepsStatus(w, t, a);
    } else if !a.Record? {
      QuietKeepsStatus(w, t, a);
    }
  }

  lemma {:induction false} OtherStatusKept(w: World, a: Action, tid: Tid)
    requires ThreadsInv(w) && CommandsInv(w) && Enabled(w, a) && Mover(a) != Some(tid)
    requires tid in w.threads && StatusInv(w, w.threads[tid]) && tid in Act(w, a).threads
    ensures StatusInv(Act(w, a), Act(w, a).threads[tid])
  {
    var t, m := w.threads[tid], Act(w, a).threads[tid];
    assert m.pc == t.pc && m.req == t.req && m.lost == t.lost && m.overwritten == t.overwritten;
    if Owning(t.pc) {
      OtherRowKept(w, a, tid);
    }
  }

  lemma {:induction false} StepKeepsStatuses(w: World, a: Action)
    requires ThreadsInv(w) && CommandsInv(w) && StatusesInv(w)
    ensures StatusesInv(Step(w, a))
  {
    if Enabled(w, a) {
      var v := Act(w, a);
      forall tid <- v.threads ensures StatusInv(v, v.threads[tid]) {
        ArrivedThread(w, a, tid);
        if Mover(a) == Some(tid) {
          MoverStatusKept(w, a);
        } else if tid in w.threads {
          OtherStatusKept(w, a, tid);
        }
      }
    }
  }

  lemma {:induction false} RunKeepsInv(run: seq<Action>)
    ensures Inv(After(run)) && CommandsInv(After(run)) && CausesInv(After(run)) && StatusesInv(After(run))
    decreases |run|
  {
    if run != [] {
      var w, a := After(run[..|run| - 1]), run[|run| - 1];
      RunKeepsInv(run[..|run| - 1]);
      StepKeepsInv(w, a);
      StepKeepsCommands(w, a);
      StepKeepsCauses(w, a);
      StepKeepsStatuses(w, a);
    }
  }

  // ---------------------------------------------------------------------------
  // Main results
  // ---------------------------------------------------------------------------

  function Executions(execs: seq<Execution>, id: RequestId): seq<Execution> {
    if execs == [] then []
    else
      var e := execs[|execs| - 1];
      Executions(execs[..|execs| - 1], id) + if e.id == id then [e] else []
  }

  lemma {:induction false} ExecutionsAtMostOne(execs: seq<Execution>, id: RequestId)
    requires forall i, j :: 0 <= i < j < |execs| ==> execs[i].id != execs[j].id
    ensures |Executions(execs, id)| <= 1
    ensures (forall i :: 0 <= i < |execs| ==> execs[i].id != id) ==> Executions(execs, id) == []
    decreases |execs|
  {
    if execs != [] {
      ExecutionsAtMostOne(execs[..|execs| - 1], id);
    }
  }

  /** However submissions of a request interleave, fail, and are repeated after restarts and shutdowns,
      its executor call or local queue change happens at most once. */
  lemma {:induction false} AtMostOnce(run: seq<Action>, id: RequestId)
    ensures |Executions(After(run).execs, id)| <= 1
  {
    RunKeepsInv(run);
    ExecutionsAtMostOne(After(run).execs, id);
  }

  /** Every submission of a request but the one that made its row never executes: one under the row's
      digest is replayed, one under another digest is refused as a mismatch, and neither is taken for the
      other (a failing store or a closed gate refuses both under other codes). */
  lemma {:induction false} OnlyTheOwnerExecutes(run: seq<Action>, tid: Tid)
    requires tid in After(run).threads
    requires var w := After(run); var id := w.threads[tid].req.id;
             id in w.rows && !(id in w.owner && w.owner[id] == tid)
    ensures var w := After(run); var t := w.threads[tid]; var same := w.rows[t.req.id].digest == t.req.digest;
            && !Owning(t.pc)
            && (forall i :: 0 <= i < |w.execs| ==> w.execs[i].tid != tid)
            && (t.pc.Replaying? || (t.pc.Answered? && t.pc.answer.Replayed?) ==> same)
            && (t.pc == Answered(Refused(DuplicateRequestMismatch)) ==> !same)
  {
    RunKeepsInv(run);
    var w := After(run);
    assert ThreadInv(w, tid, w.threads[tid]);
    forall i | 0 <= i < |w.execs| ensures w.execs[i].tid != tid {
      assert ExecutionInv(w, w.execs[i]);
    }
  }

  /** At its transaction, with the store working, a submission of a new request is recorded and goes on; one
      of a known request goes one way or the other by its digest alone, and changes no row. */
  lemma {:induction false} DigestDecides(run: seq<Action>, tid: Tid)
    requires Enabled(After(run), Record(tid, Works))
    ensures var w := After(run); var v := Step(w, Record(tid, Works)); var req := w.threads[tid].req;
            && v.execs == w.execs
            && (req.id !in w.rows ==> v.rows == w.rows[req.id := Row(req.digest, ACCEPTED)] && v.threads[tid].pc == Registering)
            && (req.id in w.rows ==>
                  v.rows == w.rows
                  && v.threads[tid].pc == (if req.digest == w.rows[req.id].digest then Replaying
                                           else Answered(Refused(DuplicateRequestMismatch))))
  {
  }

  // ---------------------------------------------------------------------------
  // One terminal receipt
  // ---------------------------------------------------------------------------

  lemma {:induction false} NoTerminals(states: seq<ReceiptState>)
    ensures Terminals(states) == 0 <==> NoTerminal(states)
    decreases |states|
  {
    if states != [] {
      var before := states[..|states| - 1];
      NoTerminals(before);
      assert NoTerminal(before) && !IsTerminal(states[|states| - 1]) ==> NoTerminal(states);
      if NoTerminal(states) {
        assert forall i :: 0 <= i < |before| ==> before[i] == states[i];
      }
    }
  }

  lemma {:induction false} EndsOnceIff(states: seq<ReceiptState>)
    ensures EndsOnce(states) <==> Terminals(states) == 1 && IsTerminal(states[|states| - 1])
  {
    if states != [] {
      NoTerminals(states[..|states| - 1]);
    }
  }

  /** In every run, whatever writes are lost: a command's channel carries one terminal receipt for its own
      end, once it has ended, and one more if the shutdown sent it one. */
  lemma {:induction false} TerminalsCounted(run: seq<Action>, tid: Tid)
    requires tid in After(run).threads
    ensures var t := After(run).threads[tid]; Terminals(t.channel) == One(Ended(t.pc)) + One(t.drain.Told?)
  {
    RunKeepsInv(run);
    assert CommandInv(After(run).threads[tid]);
  }

  /** In every run, the channel of a command that has ended carries exactly one terminal receipt, as the
      last one, if and only if the shutdown sent it none. */
  lemma {:induction false} ExactlyOneTerminal(run: seq<Action>, tid: Tid)
    requires tid in After(run).threads && Ended(After(run).threads[tid].pc)
    ensures var t := After(run).threads[tid];
            && (EndsOnce(t.channel) <==> !t.drain.Told?)
            && (EndsOnce(t.channel) ==> t.channel[|t.channel| - 1] == t.pc.state)
  {
    RunKeepsInv(run);
    var t := After(run).threads[tid];
    assert CommandInv(t);
    EndsOnceIff(t.channel);
  }

  /** One that has not ended carries none, unless the shutdown sent it one. */
  lemma {:induction false} NoneBeforeTheEnd(run: seq<Action>, tid: Tid)
    requires tid in After(run).threads && !Ended(After(run).threads[tid].pc)
    ensures var t := After(run).threads[tid]; NoTerminal(t.channel) <==> !t.drain.Told?
  {
    TerminalsCounted(run, tid);
    NoTerminals(After(run).threads[tid].channel);
  }

  lemma {:induction false} MovedDrain(w: World, t: Thread, a: Action)
    requires ThreadEnabled(t, a)
    ensures Moved(w, t, a).drain.NotDrained? <==> t.drain.NotDrained?
  {
  }

  /** A step lets the shutdown at a command exactly if it drains the table while the command is in it. */
  lemma {:induction false} DrainStep(w: World, a: Action, tid: Tid)
    requires CommandsInv(w) && tid in w.threads && tid < w.nextTid && tid in Step(w, a).threads
    ensures !Step(w, a).threads[tid].drain.NotDrained? <==>
              !w.threads[tid].drain.NotDrained? || (a.DrainTable? && w.closed && w.threads[tid].registered)
  {
    assert CommandInv(w.threads[tid]);
    if Enabled(w, a) && Mover(a) == Some(tid) {
      MovedDrain(w, w.threads[tid], a);
    }
  }

  /** The k-th step drained the table while it had the command. */
  predicate CaughtAt(run: seq<Action>, k: nat, tid: Tid)
    requires k < |run|
  {
    var w := After(run[..k]);
    run[k].DrainTable? && w.closed && tid in w.threads && w.threads[tid].registered
  }

  predicate Caught(run: seq<Action>, tid: Tid) {
    exists k :: 0 <= k < |run| && CaughtAt(run, k, tid)
  }

  lemma {:induction false} CaughtNext(run: seq<Action>, a: Action, tid: Tid)
    ensures Caught(run + [a], tid) <==>
              Caught(run, tid) || (a.DrainTable? && After(run).closed && tid in After(run).threads && After(run).threads[tid].registered)
  {
    var longer := run + [a];
    assert longer[..|run|] == run;
    forall k | 0 <= k < |run| ensures CaughtAt(longer, k, tid) <==> CaughtAt(run, k, tid) {
      assert longer[..k] == run[..k];
    }
    if Caught(run, tid) {
      var k :| 0 <= k < |run| && CaughtAt(run, k, tid);
      assert CaughtAt(longer, k, tid);
    }
    assert CaughtAt(longer, |run|, tid) <==> a.DrainTable? && After(run).closed && tid in After(run).threads && After(run).threads[tid].registered;
  }

  lemma {:induction false} NextTidGrows(w: World, a: Action)
    ensures w.nextTid <= Step(w, a).nextTid
    ensures a.Arrive? || forall tid <- Step(w, a).threads :: tid in w.threads
  {
  }

  /** Nobody is caught before it has arrived. */
  lemma {:induction false} CaughtHasArrived(run: seq<Action>, tid: Tid)
    requires Caught(run, tid)
    ensures tid < After(run).nextTid
    decreases |run|
  {
    var before, last := run[..|run| - 1], run[|run| - 1];
    assert run == before + [last];
    CaughtNext(before, last, tid);
    NextTidGrows(After(before), last);
    if Caught(before, tid) {
      CaughtHasArrived(before, tid);
    } else {
      RunKeepsInv(before);
      assert ThreadInv(After(before), tid, After(before).threads[tid]);
    }
  }

  /** In every run the shutdown deals with exactly the commands that were in the table when it drained it. */
  lemma {:induction false} DrainedExactlyWhen(run: seq<Action>, tid: Tid)
    requires tid in After(run).threads
    ensures !After(run).threads[tid].drain.NotDrained? <==> Caught(run, tid)
    decreases |run|
  {
    var before, last := run[..|run| - 1], run[|run| - 1];
    var w := After(before);
    assert run == before + [last];
    CaughtNext(before, last, tid);
    RunKeepsInv(before);
    if tid in w.threads {
      assert ThreadInv(w, tid, w.threads[tid]);
      DrainedExactlyWhen(before, tid);
      DrainStep(w, last, tid);
    } else {
      ArrivedThread(w, last, tid);
      assert tid == w.nextTid;
      if Caught(before, tid) {
        CaughtHasArrived(before, tid);
      }
    }
  }

  /** The stored status of a command that has ended, its own last write having worked, is that of its
      terminal state if and only if the shutdown did not write after it (or the two say the same). */
  lemma {:induction false} StoredStatusExactly(run: seq<Action>, tid: Tid)
    requires var w := After(run); tid in w.threads && Ended(w.threads[tid].pc) && !w.threads[tid].lost
    ensures var w := After(run); var t := w.threads[tid];
            && t.req.id in w.rows
            && (w.rows[t.req.id].status == StatusStr(t.pc.state) <==> !t.overwritten || t.pc.state.OutcomeUnknown?)
            && (t.overwritten ==> !t.drain.NotDrained? && w.rows[t.req.id].status == StatusStr(OutcomeUnknown))
  {
    RunKeepsInv(run);
    var t := After(run).threads[tid];
    assert StatusInv(After(run), t) && CommandInv(t);
    StatusRoundTrip(t.pc.state);
    StatusRoundTrip(OutcomeUnknown);
  }

  // ---------------------------------------------------------------------------
  // Which terminal state
  // ---------------------------------------------------------------------------

  /** Every fact of a live submission was told it by a step of the run. */
  ghost predicate Witnessed(run: seq<Action>, tid: Tid, f: Facts) {
    && (f.stale.Some? ==> exists snapshot :: Validate(tid, snapshot) in run
                                           && (snapshot == Err(f.stale.value) || (snapshot.Ok? && f.stale.value == StaleTurn)))
    && (f.dispatched.Some? ==> Dispatch(tid, f.dispatched.value) in run)
    && (forall s :: s in f.received ==> Receive(tid, Some(s)) in run)
    && (f.streamEnded ==> Receive(tid, None) in run)
  }

  lemma {:induction false} WitnessedLonger(run: seq<Action>, a: Action, tid: Tid, f: Facts)
    requires Witnessed(run, tid, f)
    ensures Witnessed(run + [a], tid, f)
  {
    forall x | x in run ensures x in run + [a] {
    }
  }

  lemma {:induction false} MoveWitnessed(run: seq<Action>, w: World, tid: Tid, a: Action)
    requires tid in w.threads && Mover(a) == Some(tid) && ThreadEnabled(w.threads[tid], a)
    requires Witnessed(run, tid, w.threads[tid].facts)
    ensures Witnessed(run + [a], tid, Moved(w, w.threads[tid], a).facts)
  {
    WitnessedLonger(run, a, tid, w.threads[tid].facts);
    assert a in run + [a];
  }

  lemma {:induction false} FactsAreWitnessed(run: seq<Action>, tid: Tid)
    requires tid in After(run).threads
    ensures Witnessed(run, tid, After(run).threads[tid].facts)
    decreases |run|
  {
    var before, last := run[..|run| - 1], run[|run| - 1];
    var w := After(before);
    assert run == before + [last];
    if Enabled(w, last) {
      ArrivedThread(w, last, tid);
    }
    if tid in w.threads {
      FactsAreWitnessed(before, tid);
      if Mover(last) == Some(tid) && ThreadEnabled(w.threads[tid], last) {
        MoveWitnessed(before, w, tid, last);
      } else {
        WitnessedLonger(before, last, tid, w.threads[tid].facts);
        OtherFactsKept(w, last, tid);
      }
    }
  }

  lemma {:induction false} OtherFactsKept(w: World, a: Action, tid: Tid)
    requires tid in w.threads && tid in Step(w, a).threads
    requires !(Mover(a) == Some(tid) && ThreadEnabled(w.threads[tid], a))
    ensures Step(w, a).threads[tid].facts in {w.threads[tid].facts, NOTHING}
  {
  }

  /** In every run a COMPLETED is sent to a caller only for a queue operation that was carried out, or one the
      executor took on and reported completed. */
  lemma {:induction false} CompletedIsBacked(run: seq<Action>, tid: Tid)
    requires tid in After(run).threads && Completed in After(run).threads[tid].channel
    ensures var t := After(run).threads[tid];
            && Dispatch(tid, None) in run
            && (IsQueued(t.req) || Receive(tid, Some(Completed)) in run)
  {
    RunKeepsInv(run);
    FactsAreWitnessed(run, tid);
    assert CauseInv(After(run).threads[tid]);
  }

  /** The state a command has ended in is rejected if its precondition failed or its dispatch did, unknown
      only if the executor itself could not tell or its stream ended early, completed for a queue operation
      that was carried out, and otherwise the executor's last receipt. */
  lemma {:induction false} EndExactly(run: seq<Action>, tid: Tid)
    requires tid in After(run).threads && Ended(After(run).threads[tid].pc)
    ensures var t := After(run).threads[tid]; var f := t.facts;
            && Witnessed(run, tid, f)
            && t.pc.state ==
                 if f.stale.Some? then Rejected(f.stale.value)
                 else if f.dispatched.Some? && f.dispatched.value.Some? then
                   if f.dispatched.value.value == UnknownOutcome && !IsQueued(t.req) then OutcomeUnknown
                   else Rejected(f.dispatched.value.value)
                 else if IsQueued(t.req) then Completed
                 else if f.streamEnded || f.received == [] then OutcomeUnknown
                 else f.received[|f.received| - 1]
  {
    RunKeepsInv(run);
    FactsAreWitnessed(run, tid);
    assert CauseInv(After(run).threads[tid]);
  }

  // ---------------------------------------------------------------------------
  // Replays
  // ---------------------------------------------------------------------------

  /** Nobody will write the request's row: no live submission works on it, and no shutdown has yet to
      store for it. */
  ghost predicate Settled(w: World, id: RequestId) {
    id in w.rows && forall tid <- w.threads :: w.threads[tid].req.id == id && Owning(w.threads[tid].pc) ==>
                      w.threads[tid].pc.Finished? && !w.threads[tid].drain.ToStore?
  }

  /** Only the owner's writes and the shutdown's for it change a row that is there. */
  lemma {:induction false} RowKept(rows: Rows, t: Thread, a: Action, id: RequestId)
    requires ThreadEnabled(t, a) && CommandInv(t) && id in rows
    requires t.req.id == id && Owning(t.pc) ==> t.pc.Finished? && !t.drain.ToStore?
    ensures id in RowsAfter(rows, t, a) && RowsAfter(rows, t, a)[id] == rows[id]
  {
  }

  /** Nobody starts to work on a known request, and the table has no finished command. */
  lemma {:induction false} MovedStaysSettled(w: World, t: Thread, a: Action)
    requires ThreadEnabled(t, a) && CommandInv(t) && t.req.id in w.rows
    requires Owning(t.pc) ==> t.pc.Finished? && !t.drain.ToStore?
    ensures var m := Moved(w, t, a); m.req == t.req && (Owning(m.pc) ==> m.pc.Finished? && !m.drain.ToStore?)
  {
  }

  lemma {:induction false} StepKeepsSettled(w: World, a: Action, id: RequestId)
    requires CommandsInv(w) && Settled(w, id)
    ensures Settled(Step(w, a), id) && Step(w, a).rows[id] == w.rows[id]
  {
    if Enabled(w, a) {
      if Mover(a).Some? {
        var t := w.threads[a.tid];
        assert CommandInv(t);
        RowKept(w.rows, t, a, id);
        MoverStaysSettled(w, a, id);
      } else {
        OthersStaySettled(w, a, id);
      }
    }
  }

  lemma {:induction false} MoverStaysSettled(w: World, a: Action, id: RequestId)
    requires CommandsInv(w) && Settled(w, id) && Enabled(w, a) && Mover(a).Some? && id in Act(w, a).rows
    ensures Settled(Act(w, a), id)
  {
    var t := w.threads[a.tid];
    assert CommandInv(t);
    if t.req.id == id {
      MovedStaysSettled(w, t, a);
    } else {
      assert Moved(w, t, a).req == t.req;
    }
  }

  lemma {:induction false} OthersStaySettled(w: World, a: Action, id: RequestId)
    requires CommandsInv(w) && Settled(w, id) && Enabled(w, a) && Mover(a).None?
    ensures Settled(Act(w, a), id) && Act(w, a).rows == w.rows
  {
    forall tid <- w.threads ensures CommandInv(w.threads[tid]) {
    }
  }

  lemma {:induction false} FromKeepsSettled(w: World, more: seq<Action>, id: RequestId)
    requires CommandsInv(w) && Settled(w, id)
    ensures var v := From(w, more); CommandsInv(v) && Settled(v, id) && v.rows[id] == w.rows[id]
    decreases |more|
  {
    if more != [] {
      var before := From(w, more[..|more| - 1]);
      FromKeepsSettled(w, more[..|more| - 1], id);
      StepKeepsCommands(before, more[|more| - 1]);
      StepKeepsSettled(before, more[|more| - 1], id);
    }
  }

  lemma {:induction false} FinishedIsSettled(w: World, tid: Tid)
    requires ThreadsInv(w) && tid in w.threads && w.threads[tid].pc.Finished? && !w.threads[tid].drain.ToStore?
    ensures Settled(w, w.threads[tid].req.id)
  {
    assert ThreadInv(w, tid, w.threads[tid]);
    forall other <- w.threads | w.threads[other].req.id == w.threads[tid].req.id && Owning(w.threads[other].pc)
      ensures other == tid
    {
      assert ThreadInv(w, other, w.threads[other]);
    }
  }

  /** Whatever happens after a command has finished that no shutdown has yet to write for, its own last
      write having worked, every replay that can read the row, after restarts too, answers the terminal state
      its caller was sent if and only if no shutdown wrote after it (or the two say the same). */
  lemma {:induction false} ReplayReturnsFinalState(run: seq<Action>, tid: Tid, more: seq<Action>, retry: Tid)
    requires var w := After(run);
             tid in w.threads && w.threads[tid].pc.Finished? && !w.threads[tid].lost && !w.threads[tid].drain.ToStore?
    requires Enabled(From(After(run), more), Read(retry, true))
    requires From(After(run), more).threads[retry].req.id == After(run).threads[tid].req.id
    ensures var t := After(run).threads[tid];
            var answered := Step(From(After(run), more), Read(retry, true)).threads[retry].pc;
            && (answered == Answered(Replayed(Stored(t.pc.state))) <==> !t.overwritten || t.pc.state.OutcomeUnknown?)
            && (t.drain.NotDrained? ==> !t.overwritten)
  {
    var w := After(run);
    var t := w.threads[tid];
    RunKeepsInv(run);
    assert CommandInv(t);
    StoredStatusExactly(run, tid);
    FinishedIsSettled(w, tid);
    FromKeepsSettled(w, more, t.req.id);
    StatusRoundTrip(t.pc.state);
    StatusRoundTrip(OutcomeUnknown);
  }

  // ---------------------------------------------------------------------------
  // Two runs with a shutdown
  // ---------------------------------------------------------------------------

  const REQUEST := Request(0, false, DesktopOperation("start"), StartTurn, "digest", None, None)

  const CAPABILITIES := Capabilities({DesktopOperation("start")}, false)

  const STREAMING := Facts(None, Some(None), [], false)

  const COMPLETED_FACTS := Facts(None, Some(None), [Completed], false)

  const EXECUTED := [Execution(0, 0, "digest")]

  /** The world whose only submission so far is number 0, executed and at `t`. */
  function Only(status: string, t: Thread, closed: bool): World {
    World(map[0 := Row("digest", status)], map[0 := t], 1, EXECUTED, map[0 := 0], closed)
  }

  lemma {:induction false} Extend(w: World, run: seq<Action>, a: Action) returns (longer: seq<Action>)
    requires Enabled(From(w, run), a)
    ensures From(w, longer) == Act(From(w, run), a)
  {
    longer := run + [a];
    assert (run + [a])[..|run|] == run;
  }

  /** One more step of submission 0. */
  lemma {:induction false} Take(run: seq<Action>, status: string, t: Thread, closed: bool, a: Action) returns (longer: seq<Action>)
    requires After(run) == Only(status, t, closed)
    requires Mover(a) == Some(0) && ThreadEnabled(t, a) && !a.Record? && !a.Dispatch? && t.req.id == 0
    ensures 0 in RowsAfter(map[0 := Row("digest", status)], t, a)
    ensures After(longer) == Only(RowsAfter(map[0 := Row("digest", status)], t, a)[0].status,
                                  Moved(Only(status, t, closed), t, a), closed)
  {
    var w := Only(status, t, closed);
    var rows := RowsAfter(w.rows, t, a);
    longer := Extend(START, run, a);
    assert rows == map[0 := Row("digest", rows[0].status)];
    assert w.threads[0 := Moved(w, t, a)] == map[0 := Moved(w, t, a)];
  }

  /** The run in which the one command was recorded and entered in the table. */
  lemma {:induction false} RegisteredRun() returns (run: seq<Action>)
    ensures After(run) == World(map[0 := Row("digest", ACCEPTED)],
                                map[0 := Thread(REQUEST, Validating, [], true, NotDrained, false, false, NOTHING)],
                                1, [], map[0 := 0], false)
  {
    run := Extend(START, [], Arrive(REQUEST));
    run := Extend(START, run, PassGate(0, CAPABILITIES));
    run := Extend(START, run, Record(0, Works));
    run := Extend(START, run, Register(0));
    assert After(run).threads == map[0 := Thread(REQUEST, Validating, [], true, NotDrained, false, false, NOTHING)];
  }

  /** ... and handed to the executor. */
  lemma {:induction false} ForwardingRun() returns (run: seq<Action>)
    ensures After(run) == Only(ACCEPTED, Thread(REQUEST, Forwarding, [], true, NotDrained, false, false, STREAMING), false)
  {
    run := RegisteredRun();
    run := Extend(START, run, Validate(0, Err(InternalError)));
    run := Extend(START, run, Dispatch(0, None));
    assert After(run).threads == map[0 := Thread(REQUEST, Forwarding, [], true, NotDrained, false, false, STREAMING)];
  }

  /** The run in which a shutdown took it out of the table while its forwarder waits. */
  lemma {:induction false} DrainedRun() returns (run: seq<Action>)
    ensures After(run) == Only(ACCEPTED, Thread(REQUEST, Forwarding, [], false, ToStore, false, false, STREAMING), true)
  {
    run := ForwardingRun();
    run := Extend(START, run, Close);
    run := Extend(START, run, DrainTable);
    assert After(run).threads == map[0 := Thread(REQUEST, Forwarding, [], false, ToStore, false, false, STREAMING)];
  }

  lemma {:induction false} ToldRun() returns (run: seq<Action>)
    ensures After(run) == Only("OUTCOME_UNKNOWN", Thread(REQUEST, Forwarding, [OutcomeUnknown], false, Told, false, false, STREAMING), true)
  {
    run := DrainedRun();
    var t := Thread(REQUEST, Forwarding, [], false, ToStore, false, false, STREAMING);
    run := Take(run, ACCEPTED, t, true, ShutdownStore(0, true));
    run := Take(run, "OUTCOME_UNKNOWN", t.(drain := ToSend), true, ShutdownSend(0));
    assert [] + [OutcomeUnknown] == [OutcomeUnknown];
  }

  /** The shutdown sends first, then the last receipt arrives: the caller gets two terminal receipts. */
  lemma {:induction false} ShutdownMaySendTwo() returns (run: seq<Action>)
    ensures After(run) == Only("COMPLETED", Thread(REQUEST, Ending(Completed), [OutcomeUnknown, Completed], false, Told, false, false, COMPLETED_FACTS), true)
  {
    run := ToldRun();
    var t := Thread(REQUEST, Forwarding, [OutcomeUnknown], false, Told, false, false, STREAMING);
    run := Take(run, "OUTCOME_UNKNOWN", t, true, Receive(0, Some(Completed)));
    assert [] + [Completed] == [Completed];
    run := Take(run, "OUTCOME_UNKNOWN", t.(pc := Storing(Completed), facts := COMPLETED_FACTS), true, Store(0, true));
    run := Take(run, "COMPLETED", t.(pc := Sending(Completed), facts := COMPLETED_FACTS), true, Send(0));
    assert [OutcomeUnknown] + [Completed] == [OutcomeUnknown, Completed];
  }

  /** The last receipt is stored and sent first, then the shutdown writes over it. */
  lemma {:induction false} OverwrittenRun() returns (run: seq<Action>)
    ensures After(run) == Only("OUTCOME_UNKNOWN", Thread(REQUEST, Finished(Completed), [Completed], false, ToSend, false, true, COMPLETED_FACTS), true)
  {
    run := DrainedRun();
    var t := Thread(REQUEST, Forwarding, [], false, ToStore, false, false, STREAMING);
    run := Take(run, ACCEPTED, t, true, Receive(0, Some(Completed)));
    assert [] + [Completed] == [Completed];
    t := t.(pc := Storing(Completed), facts := COMPLETED_FACTS);
    run := Take(run, ACCEPTED, t, true, Store(0, true));
    t := t.(pc := Sending(Completed));
    run := Take(run, "COMPLETED", t, true, Send(0));
    assert [] + [Completed] == [Completed];
    t := t.(pc := Ending(Completed), channel := [Completed]);
    run := Take(run, "COMPLETED", t, true, Remove(0));
    t := t.(pc := Finished(Completed));
    run := Take(run, "COMPLETED", t, true, ShutdownStore(0, true));
  }

  /** After a restart a retry has passed the gate. */
  lemma {:induction false} RetryPassed(w: World) returns (more: seq<Action>)
    requires w.nextTid == 1
    ensures From(w, more).rows == w.rows
    ensures From(w, more).threads == map[1 := NewThread(REQUEST).(pc := Recording)]
  {
    more := Extend(w, [], Restart);
    more := Extend(w, more, Arrive(REQUEST));
    assert From(w, more).threads == map[1 := NewThread(REQUEST)];
    more := Extend(w, more, PassGate(1, CAPABILITIES));
  }

  /** It is answered OUTCOME_UNKNOWN, although the caller of the first submission was sent COMPLETED. */
  lemma {:induction false} DrainedReplayFlips() returns (run: seq<Action>, more: seq<Action>)
    ensures 0 in After(run).threads
    ensures var t := After(run).threads[0];
            t.pc == Finished(Completed) && t.channel == [Completed] && !t.lost && t.overwritten
    ensures 1 in From(After(run), more).threads
    ensures From(After(run), more).threads[1].req == REQUEST
            && From(After(run), more).threads[1].pc == Answered(Replayed(StoredUnknown))
  {
    run := OverwrittenRun();
    more := RetryPassed(After(run));
    more := Extend(After(run), more, Record(1, Works));
    more := Extend(After(run), more, Read(1, true));
    StatusRoundTrip(OutcomeUnknown);
  }
}
