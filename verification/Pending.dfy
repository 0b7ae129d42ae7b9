/** The in-memory registry of pending invokes (apps/bridge/src/zcode/pending.rs).

    Records are values in a map that the registry object replaces in place. Each method of
    `PendingRegistry` is tied to a function on that map; the protocol proofs use the functions.
    Two things a method cannot see are parameters: the clock, and whether the receiving end of
    the reply channel is still held by the connection handler. */
module Pending {
  import opened Wrappers
  import opened Contract

  datatype InvokeKind = PermissionRequest | AskUser

  datatype PendingState =
    | Waiting
    | Decided
    | ReturnedToRuntime
    | RuntimeProcessed
    | Expired
    | HandledLocally
  {
    predicate IsTerminal() {
      ReturnedToRuntime? || RuntimeProcessed? || Expired? || HandledLocally?
    }
  }

  datatype PendingError = Unknown | AlreadyDecided | Expired | Cancelled | Duplicate

  datatype DeliveryOutcome = Delivered | Unconfirmed

  /** What a registration says about its invoke; never changed afterwards. */
  datatype InvokeInfo = InvokeInfo(
    kind: InvokeKind,
    nativeSession: Option<string>,
    toolName: Option<string>,
    toolUseId: Option<string>,
    ask: Option<AskRequest>,
    actionSummary: Option<string>)

  /** `responder`, `deliveryTx` and `deliveryRx` say whether the record still holds that
      channel end. */
  datatype PendingRecord = PendingRecord(
    info: InvokeInfo,
    state: PendingState,
    createdAt: nat,
    deadline: nat,
    responder: bool,
    deliveryTx: bool,
    deliveryRx: bool)

  type Registry = map<string, PendingRecord>

  // ---------------------------------------------------------------------------
  // One record
  // ---------------------------------------------------------------------------

  function NewRecord(info: InvokeInfo, now: nat, wait: nat): PendingRecord {
    PendingRecord(info, Waiting, now, now + wait, true, true, true)
  }

  /** The outcome of `resolve` on one record. */
  datatype Resolution = Resolution(record: PendingRecord, result: Result<PendingState, PendingError>)

  function ResolveRecord(r: PendingRecord, now: nat, receiverOpen: bool): Resolution {
    match r.state
    case Decided | ReturnedToRuntime | RuntimeProcessed => Resolution(r, Err(AlreadyDecided))
    case Expired => Resolution(r, Err(PendingError.Expired))
    case HandledLocally => Resolution(r, Err(PendingError.Cancelled))
    case Waiting =>
      if now >= r.deadline then
        Resolution(r.(state := PendingState.Expired), Err(PendingError.Expired))
      else if !r.responder then
        Resolution(r.(state := HandledLocally), Err(PendingError.Cancelled))
      else if !receiverOpen then
        Resolution(r.(state := HandledLocally, responder := false), Err(PendingError.Cancelled))
      else
        Resolution(r.(state := Decided, responder := false), Ok(Decided))
  }

  function CompleteRecord(r: PendingRecord, outcome: DeliveryOutcome): PendingRecord {
    if r.state != Decided then r
    else r.(state := if outcome == Delivered then ReturnedToRuntime else HandledLocally, deliveryTx := false)
  }

  function ProcessRecord(r: PendingRecord): PendingRecord {
    if r.state == ReturnedToRuntime then r.(state := RuntimeProcessed) else r
  }

  function ExpireRecord(r: PendingRecord): PendingRecord {
    if r.state == Waiting then r.(state := PendingState.Expired) else r
  }

  function FinalizeRecord(r: PendingRecord): PendingRecord {
    if r.state == Decided then r.(state := PendingState.Expired) else r
  }

  function CancelRecord(r: PendingRecord): PendingRecord {
    if r.state == Waiting then r.(state := HandledLocally, responder := false) else r
  }

  // ---------------------------------------------------------------------------
  // The whole registry
  // ---------------------------------------------------------------------------

  /** `register`'s clean-up: terminal records whose deadline has passed are dropped. */
  function Retained(reg: Registry, now: nat): Registry {
    map id | id in reg && (reg[id].deadline > now || !reg[id].state.IsTerminal()) :: reg[id]
  }

  function Registered(reg: Registry, id: string, info: InvokeInfo, now: nat, wait: nat): Registry {
    if id in reg then reg else Retained(reg, now)[id := NewRecord(info, now, wait)]
  }

  function StateOf(reg: Registry, id: string): Option<PendingState> {
    if id in reg then Some(reg[id].state) else None
  }

  // ---------------------------------------------------------------------------
  // The registry object
  // ---------------------------------------------------------------------------

  class PendingRegistry {
    var records: Registry

    constructor ()
      ensures records == map[]
    {
      records := map[];
    }

    /** On success the caller holds the receiving end of a fresh reply channel. */
    method Register(id: string, info: InvokeInfo, now: nat, wait: nat) returns (ok: Result<(), PendingError>)
      modifies this
      ensures records == Registered(old(records), id, info, now, wait)
      ensures ok == if id in old(records) then Err(Duplicate) else Ok(())
    {
      if id in records {
        return Err(Duplicate);
      }
      records := map k | k in records && (records[k].deadline > now || !records[k].state.IsTerminal()) :: records[k];
      records := records[id := PendingRecord(info, Waiting, now, now + wait, true, true, true)];
      return Ok(());
    }

    /** The only way to decide. `sent` is what went into the reply channel. */
    method Resolve(id: string, reply: HookReply, now: nat, receiverOpen: bool)
      returns (result: Result<PendingState, PendingError>, sent: Option<HookReply>)
      modifies this
      ensures id !in old(records) ==> records == old(records) && result == Err(Unknown)
      ensures id in old(records) ==>
                var r := ResolveRecord(old(records)[id], now, receiverOpen);
                records == old(records)[id := r.record] && result == r.result
      ensures sent == if result.Ok? then Some(reply) else None
    {
      sent := None;
      if id !in records {
        return Err(Unknown), None;
      }
      var record := records[id];
      match record.state {
        case Waiting =>
        case Decided => return Err(AlreadyDecided), None;
        case Expired => return Err(PendingError.Expired), None;
        case HandledLocally => return Err(PendingError.Cancelled), None;
        case ReturnedToRuntime => return Err(AlreadyDecided), None;
        case RuntimeProcessed => return Err(AlreadyDecided), None;
      }
      if now >= record.deadline {
        records := records[id := record.(state := PendingState.Expired)];
        return Err(PendingError.Expired), None;
      }
      var responder := record.responder;
      record := record.(responder := false);
      if !responder {
        records := records[id := record.(state := HandledLocally)];
        return Err(PendingError.Cancelled), None;
      }
      record := record.(state := Decided);
      if !receiverOpen {
        records := records[id := record.(state := HandledLocally)];
        return Err(PendingError.Cancelled), None;
      }
      records := records[id := record];
      return Ok(record.state), Some(reply);
    }

    /** Hands out the receiving end of the delivery channel, once. */
    method TakeDelivery(id: string) returns (taken: bool)
      modifies this
      ensures taken == (id in old(records) && old(records)[id].deliveryRx)
      ensures records == if taken then old(records)[id := old(records)[id].(deliveryRx := false)] else old(records)
    {
      if id !in records || !records[id].deliveryRx {
        return false;
      }
      records := records[id := records[id].(deliveryRx := false)];
      return true;
    }

    /** `sent` is the outcome put into the delivery channel. */
    method CompleteDelivery(id: string, outcome: DeliveryOutcome)
      returns (result: Result<PendingState, PendingError>, sent: Option<DeliveryOutcome>)
      modifies this
      ensures id !in old(records) ==> records == old(records) && result == Err(Unknown)
      ensures id in old(records) ==> records == old(records)[id := CompleteRecord(old(records)[id], outcome)]
      ensures id in old(records) && old(records)[id].state != Decided ==> result == Err(AlreadyDecided)
      ensures id in old(records) && old(records)[id].state == Decided ==> result == Ok(records[id].state)
      ensures sent == if result.Ok? && old(records)[id].deliveryTx then Some(outcome) else None
    {
      if id !in records {
        return Err(Unknown), None;
      }
      var record := records[id];
      if record.state != Decided {
        return Err(AlreadyDecided), None;
      }
      match outcome {
        case Delivered => record := record.(state := ReturnedToRuntime);
        case Unconfirmed => record := record.(state := HandledLocally);
      }
      sent := None;
      if record.deliveryTx {
        record := record.(deliveryTx := false);
        sent := Some(outcome);
      }
      records := records[id := record];
      result := Ok(record.state);
    }

    method MarkRuntimeProcessed(id: string) returns (result: Result<(), PendingError>)
      modifies this
      ensures id !in old(records) ==> records == old(records) && result == Err(Unknown)
      ensures id in old(records) ==> records == old(records)[id := ProcessRecord(old(records)[id])]
      ensures id in old(records) ==> result == if old(records)[id].state == ReturnedToRuntime then Ok(()) else Err(AlreadyDecided)
    {
      if id !in records {
        return Err(Unknown);
      }
      if records[id].state != ReturnedToRuntime {
        return Err(AlreadyDecided);
      }
      records := records[id := records[id].(state := RuntimeProcessed)];
      return Ok(());
    }

    method Expire(id: string) returns (result: Result<PendingState, PendingError>)
      modifies this
      ensures id !in old(records) ==> records == old(records) && result == Err(Unknown)
      ensures id in old(records) ==> records == old(records)[id := ExpireRecord(old(records)[id])]
      ensures id in old(records) ==>
                result == if old(records)[id].state == Waiting then Ok(PendingState.Expired) else Err(AlreadyDecided)
    {
      if id !in records {
        return Err(Unknown);
      }
      if records[id].state != Waiting {
        return Err(AlreadyDecided);
      }
      records := records[id := records[id].(state := PendingState.Expired)];
      return Ok(PendingState.Expired);
    }

    /** Time-out settlement: check and transition under one lock. */
    method ExpireOrAlreadyExpired(id: string) returns (settled: bool)
      modifies this
      ensures settled == (StateOf(old(records), id) in {Some(Waiting), Some(PendingState.Expired)})
      ensures records == if id in old(records) then old(records)[id := ExpireRecord(old(records)[id])] else old(records)
    {
      if id !in records {
        return false;
      }
      match records[id].state {
        case Waiting =>
          records := records[id := records[id].(state := PendingState.Expired)];
          return true;
        case Expired => return true;
        case _ => return false;
      }
    }

    method FinalizeDecidedAfterRace(id: string) returns (raced: bool)
      modifies this
      ensures raced == (StateOf(old(records), id) == Some(Decided))
      ensures records == if id in old(records) then old(records)[id := FinalizeRecord(old(records)[id])] else old(records)
    {
      if id in records && records[id].state == Decided {
        records := records[id := records[id].(state := PendingState.Expired)];
        return true;
      }
      return false;
    }

    method Cancel(id: string) returns (result: Result<PendingState, PendingError>)
      modifies this
      ensures id !in old(records) ==> records == old(records) && result == Err(Unknown)
      ensures id in old(records) ==> records == old(records)[id := CancelRecord(old(records)[id])]
      ensures id in old(records) ==>
                result == if old(records)[id].state == Waiting then Ok(HandledLocally) else Err(AlreadyDecided)
    {
      if id !in records {
        return Err(Unknown);
      }
      if records[id].state != Waiting {
        return Err(AlreadyDecided);
      }
      records := records[id := records[id].(state := HandledLocally, responder := false)];
      return Ok(HandledLocally);
    }
  }
}
