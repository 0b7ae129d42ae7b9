/** What any sequence of registry calls can do to one record: the order of its states and the
    ownership of its channel ends. */
module PendingLifecycle {
  import opened Pending

  /** A registry call, as one record sees it. */
  datatype RecordOp =
    | Resolve(now: nat, receiverOpen: bool)
    | TakeDelivery
    | Complete(outcome: DeliveryOutcome)
    | Process
    | Expire
    | Finalize
    | Cancel

  function Apply(r: PendingRecord, op: RecordOp): PendingRecord {
    match op
    case Resolve(now, receiverOpen) => ResolveRecord(r, now, receiverOpen).record
    case TakeDelivery => r.(deliveryRx := false)
    case Complete(outcome) => CompleteRecord(r, outcome)
    case Process => ProcessRecord(r)
    case Expire => ExpireRecord(r)
    case Finalize => FinalizeRecord(r)
    case Cancel => CancelRecord(r)
  }

  function ApplyAll(r: PendingRecord, ops: seq<RecordOp>): PendingRecord
    decreases |ops|
  {
    if ops == [] then r else ApplyAll(Apply(r, ops[0]), ops[1..])
  }

  /** A waiting record can still be answered and its delivery reported; a decided one can only
      be reported. */
  predicate OwnsChannels(r: PendingRecord) {
    && (r.state == Waiting ==> r.responder && r.deliveryTx)
    && (r.state == Decided ==> !r.responder && r.deliveryTx)
  }

  /** The transitions that may be observed between two calls. */
  predicate Edge(a: PendingState, b: PendingState) {
    || (a == Waiting && b in {Decided, PendingState.Expired, HandledLocally})
    || (a == Decided && b in {ReturnedToRuntime, PendingState.Expired, HandledLocally})
    || (a == ReturnedToRuntime && b == RuntimeProcessed)
  }

  function Rank(s: PendingState): nat {
    match s
    case Waiting => 0
    case Decided => 1
    case ReturnedToRuntime => 2
    case RuntimeProcessed | Expired | HandledLocally => 3
  }

  function Moves(r: PendingRecord, ops: seq<RecordOp>): nat
    decreases |ops|
  {
    if ops == [] then 0
    else
      var next := Apply(r, ops[0]);
      (if next.state != r.state then 1 else 0) + Moves(next, ops[1..])
  }

  /** How often a call in the sequence puts an outcome into the delivery channel. */
  function OutcomesSent(r: PendingRecord, ops: seq<RecordOp>): nat
    decreases |ops|
  {
    if ops == [] then 0
    else (if ops[0].Complete? && r.state == Decided && r.deliveryTx then 1 else 0)
         + OutcomesSent(Apply(r, ops[0]), ops[1..])
  }

  /** How often `resolve` answers Ok. */
  function Decisions(r: PendingRecord, ops: seq<RecordOp>): nat
    decreases |ops|
  {
    if ops == [] then 0
    else (if ops[0].Resolve? && ResolveRecord(r, ops[0].now, ops[0].receiverOpen).result.Ok? then 1 else 0)
         + Decisions(Apply(r, ops[0]), ops[1..])
  }

  lemma {:induction false} StepKeepsOwnership(r: PendingRecord, op: RecordOp)
    requires OwnsChannels(r)
    ensures OwnsChannels(Apply(r, op))
    ensures Apply(r, op).state == r.state || (Edge(r.state, Apply(r, op).state) && Rank(r.state) < Rank(Apply(r, op).state))
    ensures Apply(r, op).info == r.info && Apply(r, op).deadline == r.deadline
  {
  }

  /** Ownership holds after every sequence of calls, so the branch of `resolve` for a waiting
      record without a responder is never taken. */
  lemma {:induction false} OwnershipAlways(info: InvokeInfo, now: nat, wait: nat, ops: seq<RecordOp>)
    ensures var r := ApplyAll(NewRecord(info, now, wait), ops);
            OwnsChannels(r) && !(r.state == Waiting && !r.responder)
  {
    OwnershipFrom(NewRecord(info, now, wait), ops);
  }

  lemma {:induction false} OwnershipFrom(r: PendingRecord, ops: seq<RecordOp>)
    requires OwnsChannels(r)
    ensures OwnsChannels(ApplyAll(r, ops))
    decreases |ops|
  {
    if ops != [] {
      StepKeepsOwnership(r, ops[0]);
      OwnershipFrom(Apply(r, ops[0]), ops[1..]);
    }
  }

  /** At most three transitions, whatever is called. */
  lemma {:induction false} AtMostThreeMoves(r: PendingRecord, ops: seq<RecordOp>)
    requires OwnsChannels(r)
    ensures Moves(r, ops) + Rank(r.state) <= 3
    ensures Rank(ApplyAll(r, ops).state) >= Rank(r.state) + Moves(r, ops)
    decreases |ops|
  {
    if ops != [] {
      StepKeepsOwnership(r, ops[0]);
      AtMostThreeMoves(Apply(r, ops[0]), ops[1..]);
    }
  }

  /** One decision and one delivery outcome per registration, and no outcome without a decision. */
  lemma {:induction false} DecidedAndReportedOnce(r: PendingRecord, ops: seq<RecordOp>)
    requires OwnsChannels(r)
    ensures Decisions(r, ops) <= if r.state == Waiting then 1 else 0
    ensures OutcomesSent(r, ops) <= Decisions(r, ops) + (if r.state == Decided then 1 else 0)
    decreases |ops|
  {
    if ops != [] {
      StepKeepsOwnership(r, ops[0]);
      DecidedAndReportedOnce(Apply(r, ops[0]), ops[1..]);
    }
  }

  /** Three moves are made by the calls of a delivery that goes well: decided in time, completed, processed. */
  lemma {:induction false} ThreeMovesReached(info: InvokeInfo, now: nat, wait: nat, at: nat)
    requires at < now + wait
    ensures var r := NewRecord(info, now, wait); var ops := [Resolve(at, true), Complete(Delivered), Process];
            Moves(r, ops) == 3 && ApplyAll(r, ops).state == RuntimeProcessed
  {
    var r, ops := NewRecord(info, now, wait), [Resolve(at, true), Complete(Delivered), Process];
    assert ops[1..] == [Complete(Delivered), Process];
    assert ops[1..][1..] == [Process];
    assert ops[1..][1..][1..] == [];
    var decided := Apply(r, ops[0]);
    var returned := Apply(decided, ops[1]);
    assert Moves(returned, [Process]) == 1;
    assert Moves(decided, ops[1..]) == 2;
    assert ApplyAll(returned, [Process]).state == RuntimeProcessed;
    assert ApplyAll(decided, ops[1..]) == ApplyAll(returned, [Process]);
  }
}
