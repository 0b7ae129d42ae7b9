/** The single-slot next-turn queue (apps/bridge/src/commands/queue.rs) over its rows
    (apps/bridge/src/local_store/mod.rs). Steps of one session follow each other. */
module Queue {
  import opened Wrappers
  import opened Gateway

  const IDLE_AFTER_TURN := "idle"

  datatype Status = Queued | Paused | Empty

  datatype Entry = Entry(prompt: string, afterTurn: string, revision: nat, status: Status)

  datatype SessionSnapshot = SessionSnapshot(currentTurn: Option<string>, revision: nat, questions: nat, approvals: nat)

  /** Whether the row can be read and written; busy retries are over by then. */
  datatype Access = Access(readable: bool, writable: bool)

  datatype Refusal = QueuePaused | QueueAlreadyExists | StoreError | Unavailable(code: Code)

  datatype TurnOutcome = TurnCompleted | TurnFailed | TurnInterrupted

  datatype TurnEvent = TurnEnded(outcome: TurnOutcome) | TurnActive(turn: string) | OtherEvent

  /** What one automatic send meets outside: the row, the session, the executor, and the row again. */
  datatype Encounter = Encounter(readable: bool, snapshot: Result<SessionSnapshot, Code>, failure: Option<Code>,
                                 receipts: seq<ReceiptState>, after: Access)

  // ---------------------------------------------------------------------------
  // One session's slot
  // ---------------------------------------------------------------------------

  type Slot = Option<Entry>

  predicate IsQueued(slot: Slot) {
    slot.Some? && slot.value.status.Queued?
  }

  function EntryFrom(s: SessionSnapshot, prompt: string): Entry {
    Entry(prompt, if s.currentTurn.Some? then s.currentTurn.value else IDLE_AFTER_TURN, s.revision, Queued)
  }

  function Set(slot: Slot, prompt: string, replace: bool, s: SessionSnapshot, access: Access): (Result<Entry, Refusal>, Slot) {
    if !access.readable then (Err(StoreError), slot)
    else if slot.Some? && !replace then (Err(if slot.value.status.Paused? then QueuePaused else QueueAlreadyExists), slot)
    else if !access.writable then (Err(StoreError), slot)
    else (Ok(EntryFrom(s, prompt)), Some(EntryFrom(s, prompt)))
  }

  function Pause(slot: Slot, access: Access): (Result<bool, Refusal>, Slot) {
    if !access.readable then (Err(StoreError), slot)
    else if slot.None? || slot.value.status.Paused? then (Ok(false), slot)
    else if !access.writable then (Err(StoreError), slot)
    else (Ok(true), Some(slot.value.(status := Paused)))
  }

  function Cancel(slot: Slot, access: Access): (Result<bool, Refusal>, Slot) {
    if access.writable then (Ok(slot.Some?), None) else (Err(StoreError), slot)
  }

  /** The user's renewed confirmation, before the send it may trigger. */
  function Confirm(slot: Slot, s: Result<SessionSnapshot, Code>, access: Access): (Result<Option<Entry>, Refusal>, Slot) {
    if !access.readable then (Err(StoreError), slot)
    else if slot.None? then (Ok(None), slot)
    else if s.Err? then (Err(Unavailable(s.error)), slot)
    else if !access.writable then (Err(StoreError), slot)
    else (Ok(Some(EntryFrom(s.value, slot.value.prompt))), Some(EntryFrom(s.value, slot.value.prompt)))
  }

  function MarkPaused(slot: Slot, access: Access): Slot {
    if access.readable && access.writable && IsQueued(slot) then Some(slot.value.(status := Paused)) else slot
  }

  /** The first receipt that ends the wait is a completion. */
  function Sent(receipts: seq<ReceiptState>): bool
    decreases |receipts|
  {
    receipts != [] && (receipts[0].Completed? || (receipts[0].DispatchedToCodex? && Sent(receipts[1..])))
  }

  /** The new slot, and the prompt of the StartTurn handed to the executor, if one was. */
  datatype Effect = Effect(slot: Slot, attempt: Option<string>)

  function AutoSend(slot: Slot, x: Encounter): Effect {
    if !x.readable || !IsQueued(slot) then Effect(slot, None)
    else if x.snapshot.Err? then Effect(MarkPaused(slot, x.after), None)
    else if x.snapshot.value.currentTurn.Some? || x.snapshot.value.questions > 0 || x.snapshot.value.approvals > 0 then
      Effect(slot, None)
    else
      Effect(if x.failure.Some? || !Sent(x.receipts) then MarkPaused(slot, x.after)
             else if x.after.writable then None
             else slot,
             Some(slot.value.prompt))
  }

  function OnEvent(slot: Slot, inflight: bool, event: TurnEvent, x: Encounter): Effect {
    match event
    case TurnEnded(TurnCompleted) => AutoSend(slot, x)
    case TurnEnded(_) => Effect(MarkPaused(slot, x.after), None)
    case TurnActive(turn) =>
      if !inflight && x.readable && IsQueued(slot) && slot.value.afterTurn != turn
      then Effect(MarkPaused(slot, x.after), None)
      else Effect(slot, None)
    case OtherEvent => Effect(slot, None)
  }

  // ---------------------------------------------------------------------------
  // The manager
  // ---------------------------------------------------------------------------

  class QueueManager {
    var rows: map<string, Entry>
    var autoSendInflight: set<string>
    var attempts: seq<(string, string)>

    constructor ()
      ensures rows == map[] && autoSendInflight == {} && attempts == []
    {
      rows, autoSendInflight, attempts := map[], {}, [];
    }

    function SlotOf(session: string): Slot
      reads this
    {
      if session in rows then Some(rows[session]) else None
    }

    /** The session's slot is `slot`, and every other row is as it was. */
    ghost predicate Now(before: map<string, Entry>, session: string, slot: Slot)
      reads this
    {
      rows == if slot.Some? then before[session := slot.value] else before - {session}
    }

    method SetQueue(session: string, prompt: string, replace: bool, snapshot: SessionSnapshot, access: Access)
      returns (r: Result<Entry, Refusal>)
      modifies this`rows
      ensures (r, SlotOf(session)) == Set(old(SlotOf(session)), prompt, replace, snapshot, access)
      ensures Now(old(rows), session, SlotOf(session))
    {
      if !access.readable {
        return Err(StoreError);
      }
      if session in rows && !replace {
        return Err(if rows[session].status == Paused then QueuePaused else QueueAlreadyExists);
      }
      var entry := EntryFrom(snapshot, prompt);
      if !access.writable {
        return Err(StoreError);
      }
      rows := rows[session := entry];
      return Ok(entry);
    }

    method PauseQueue(session: string, access: Access) returns (r: Result<bool, Refusal>)
      modifies this`rows
      ensures (r, SlotOf(session)) == Pause(old(SlotOf(session)), access)
      ensures Now(old(rows), session, SlotOf(session))
    {
      if !access.readable {
        return Err(StoreError);
      }
      if session !in rows || rows[session].status == Paused {
        return Ok(false);
      }
      if !access.writable {
        return Err(StoreError);
      }
      rows := rows[session := rows[session].(status := Paused)];
      return Ok(true);
    }

    method CancelQueue(session: string, access: Access) returns (r: Result<bool, Refusal>)
      modifies this`rows
      ensures (r, SlotOf(session)) == Cancel(old(SlotOf(session)), access)
      ensures Now(old(rows), session, SlotOf(session))
    {
      if !access.writable {
        return Err(StoreError);
      }
      r := Ok(session in rows);
      rows := rows - {session};
    }

    method ResumeQueue(session: string, snapshot: Result<SessionSnapshot, Code>, access: Access, x: Encounter)
      returns (r: Result<Option<Entry>, Refusal>)
      modifies this
      ensures r == Confirm(old(SlotOf(session)), snapshot, access).0
      ensures var confirmed := Confirm(old(SlotOf(session)), snapshot, access).1;
              if r.Ok? && r.value.Some? then Acted(old(rows), old(attempts), session, AutoSend(confirmed, x))
              else SlotOf(session) == confirmed && attempts == old(attempts)
      ensures Now(old(rows), session, SlotOf(session))
      ensures autoSendInflight <= old(autoSendInflight)
    {
      if !access.readable {
        return Err(StoreError);
      }
      if session !in rows {
        return Ok(None);
      }
      if snapshot.Err? {
        return Err(Unavailable(snapshot.error));
      }
      var rebound := EntryFrom(snapshot.value, rows[session].prompt);
      var entry := rows[session].(afterTurn := rebound.afterTurn, revision := rebound.revision, status := Queued);
      if !access.writable {
        return Err(StoreError);
      }
      rows := rows[session := entry];
      MaybeAutoSend(session, x);
      return Ok(Some(entry));
    }

    /** The session's slot and attempts are as `effect` says; the others are as they were. */
    ghost predicate Acted(rowsBefore: map<string, Entry>, attemptsBefore: seq<(string, string)>, session: string, effect: Effect)
      reads this
    {
      && SlotOf(session) == effect.slot
      && Now(rowsBefore, session, effect.slot)
      && attempts == attemptsBefore + if effect.attempt.Some? then [(session, effect.attempt.value)] else []
    }

    method MarkPausedRow(session: string, access: Access)
      modifies this`rows
      ensures Acted(old(rows), old(attempts), session, Effect(MarkPaused(old(SlotOf(session)), access), None))
    {
      if !access.readable || session !in rows || rows[session].status != Queued {
        return;
      }
      if access.writable {
        rows := rows[session := rows[session].(status := Paused)];
      }
    }

    method MaybeAutoSend(session: string, x: Encounter)
      modifies this
      ensures var effect := AutoSend(old(SlotOf(session)), x);
              && Acted(old(rows), old(attempts), session, effect)
              && autoSendInflight == if effect.attempt.Some? then old(autoSendInflight) - {session} else old(autoSendInflight)
    {
      if !x.readable || session !in rows || rows[session].status != Queued {
        return;
      }
      if x.snapshot.Err? {
        MarkPausedRow(session, x.after);
        return;
      }
      if x.snapshot.value.currentTurn.Some? {
        return;
      }
      if x.snapshot.value.questions != 0 || x.snapshot.value.approvals != 0 {
        return;
      }
      autoSendInflight := autoSendInflight + {session};
      attempts := attempts + [(session, rows[session].prompt)];
      if x.failure.Some? {
        MarkPausedRow(session, x.after);
      } else {
        var sent := AwaitSent(x.receipts);
        if sent {
          if x.after.writable {
            rows := rows - {session};
          }
        } else {
          MarkPausedRow(session, x.after);
        }
      }
      autoSendInflight := autoSendInflight - {session};
    }

    method HandleEvent(session: string, event: TurnEvent, x: Encounter)
      modifies this
      ensures Acted(old(rows), old(attempts), session, OnEvent(old(SlotOf(session)), session in old(autoSendInflight), event, x))
      ensures event.OtherEvent? ==> autoSendInflight == old(autoSendInflight)
      ensures !event.OtherEvent? ==> autoSendInflight == old(autoSendInflight) - {session}
    {
      match event {
        case TurnEnded(outcome) =>
          autoSendInflight := autoSendInflight - {session};
          if outcome == TurnCompleted {
            MaybeAutoSend(session, x);
          } else {
            MarkPausedRow(session, x.after);
          }
        case TurnActive(turn) =>
          if session in autoSendInflight {
            autoSendInflight := autoSendInflight - {session};
            return;
          }
          if !x.readable || session !in rows {
            return;
          }
          if rows[session].status == Queued && rows[session].afterTurn != turn {
            MarkPausedRow(session, x.after);
          }
        case OtherEvent =>
      }
    }
  }

  /** Waits for the receipt that ends an attempt. */
  method AwaitSent(receipts: seq<ReceiptState>) returns (sent: bool)
    ensures sent == Sent(receipts)
    ensures sent <==> exists i :: 0 <= i < |receipts| && receipts[i].Completed?
                                  && forall j :: 0 <= j < i ==> receipts[j].DispatchedToCodex?
  {
    sent := false;
    var i: nat := 0;
    while i < |receipts|
      invariant i <= |receipts| && !sent
      invariant Sent(receipts) == Sent(receipts[i..])
      invariant forall j :: 0 <= j < i ==> receipts[j].DispatchedToCodex?
    {
      var receipt := receipts[i];
      assert receipts[i..][1..] == receipts[i + 1..];
      i := i + 1;
      match receipt {
        case DispatchedToCodex =>
        case Completed => return true;
        case Rejected(_) => return false;
        case OutcomeUnknown => return false;
      }
    }
  }
}
