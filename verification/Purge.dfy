/** `register` forgets ended records. Compared with a registry that never forgets, no decision
    comes out differently. */
module Purge {
  import opened Pending

  datatype Call =
    | Register(id: string, info: InvokeInfo, wait: nat)
    | Resolve(id: string, receiverOpen: bool)
    | TakeDelivery(id: string)
    | Complete(id: string, outcome: DeliveryOutcome)
    | Process(id: string)
    | Expire(id: string)
    | ExpireOrAlreadyExpired(id: string)
    | Finalize(id: string)
    | Cancel(id: string)

  datatype TimedCall = At(now: nat, call: Call)

  /** What the caller learns. A refused decision reaches the browser as APPROVAL_EXPIRED whatever
      the `PendingError` was (link.rs `pending_error`), so refusals carry no reason here. */
  datatype Answer = Done | Refused

  function Answered(ok: bool): Answer {
    if ok then Done else Refused
  }

  function Change(reg: Registry, id: string, r: PendingRecord): Registry {
    reg[id := r]
  }

  /** The code's registry (`forgets`) and the one that keeps everything. */
  function Apply(reg: Registry, t: TimedCall, forgets: bool): Registry {
    var c := t.call;
    if c.Register? then
      if c.id in reg then reg
      else if forgets then Registered(reg, c.id, c.info, t.now, c.wait)
      else reg[c.id := NewRecord(c.info, t.now, c.wait)]
    else if c.id !in reg then reg
    else
      var r := reg[c.id];
      match c
      case Resolve(id, receiverOpen) => Change(reg, id, ResolveRecord(r, t.now, receiverOpen).record)
      case TakeDelivery(id) => Change(reg, id, r.(deliveryRx := false))
      case Complete(id, outcome) => Change(reg, id, CompleteRecord(r, outcome))
      case Process(id) => Change(reg, id, ProcessRecord(r))
      case Expire(id) => Change(reg, id, ExpireRecord(r))
      case ExpireOrAlreadyExpired(id) => Change(reg, id, ExpireRecord(r))
      case Finalize(id) => Change(reg, id, FinalizeRecord(r))
      case Cancel(id) => Change(reg, id, CancelRecord(r))
  }

  function Reply(reg: Registry, t: TimedCall): Answer {
    var c := t.call;
    if c.Register? then Answered(c.id !in reg)
    else if c.id !in reg then Refused
    else
      var r := reg[c.id];
      match c
      case Resolve(_, receiverOpen) => Answered(ResolveRecord(r, t.now, receiverOpen).result.Ok?)
      case TakeDelivery(_) => Answered(r.deliveryRx)
      case Complete(_, _) => Answered(r.state == Decided)
      case Process(_) => Answered(r.state == ReturnedToRuntime)
      case Expire(_) => Answered(r.state == Waiting)
      case ExpireOrAlreadyExpired(_) => Answered(r.state == Waiting || r.state == PendingState.Expired)
      case Finalize(_) => Answered(r.state == Decided)
      case Cancel(_) => Answered(r.state == Waiting)
  }

  /** The calls whose answer does not depend on whether an ended record is remembered. */
  predicate IsDecisionCall(c: Call) {
    c.Register? || c.Resolve? || c.Complete? || c.Expire? || c.Finalize? || c.Cancel?
  }

  /** The forgetful registry holds the same records, less some ended ones past their deadline. */
  predicate Simulates(few: Registry, all: Registry, now: nat) {
    && few.Keys <= all.Keys
    && (forall id :: id in few ==> few[id] == all[id])
    && (forall id :: id in all && id !in few ==> all[id].state.IsTerminal() && all[id].deadline <= now)
  }

  /** Time does not run backwards, and an invoke id is not registered again once its record was
      forgotten (ids are random UUIDs). */
  predicate Legal(few: Registry, all: Registry, now: nat, calls: seq<TimedCall>)
    decreases |calls|
  {
    calls == [] ||
    (&& now <= calls[0].now
     && (calls[0].call.Register? ==> (calls[0].call.id in all ==> calls[0].call.id in few))
     && Legal(Apply(few, calls[0], true), Apply(all, calls[0], false), calls[0].now, calls[1..]))
  }

  /** The answers to the decision calls of a history, in order. */
  function DecisionAnswers(reg: Registry, calls: seq<TimedCall>, forgets: bool): seq<Answer>
    decreases |calls|
  {
    if calls == [] then []
    else
      (if IsDecisionCall(calls[0].call) then [Reply(reg, calls[0])] else [])
      + DecisionAnswers(Apply(reg, calls[0], forgets), calls[1..], forgets)
  }

  lemma {:induction false} StepSimulates(few: Registry, all: Registry, now: nat, t: TimedCall)
    requires Simulates(few, all, now) && now <= t.now
    requires t.call.Register? ==> (t.call.id in all ==> t.call.id in few)
    ensures Simulates(Apply(few, t, true), Apply(all, t, false), t.now)
    ensures IsDecisionCall(t.call) ==> Reply(few, t) == Reply(all, t)
  {
  }

  /** Forgetting is invisible to decisions: over every legal history, the registry that forgets
      and the one that never does answer every registration, decision, delivery completion,
      expiry, race settlement and cancellation alike. */
  lemma {:induction false} PurgeIsInvisible(few: Registry, all: Registry, now: nat, calls: seq<TimedCall>)
    requires Simulates(few, all, now) && Legal(few, all, now, calls)
    ensures DecisionAnswers(few, calls, true) == DecisionAnswers(all, calls, false)
    decreases |calls|
  {
    if calls != [] {
      StepSimulates(few, all, now, calls[0]);
      PurgeIsInvisible(Apply(few, calls[0], true), Apply(all, calls[0], false), calls[0].now, calls[1..]);
    }
  }

  /** Where it is visible: a remaining call answers differently exactly when its record was
      forgotten in a state the call would have answered. */
  lemma {:induction false} WhereForgettingShows(few: Registry, all: Registry, now: nat, t: TimedCall)
    requires Simulates(few, all, now) && now <= t.now && !t.call.Register?
    ensures Reply(few, t) != Reply(all, t) <==>
              && t.call.id in all && t.call.id !in few
              && match t.call
                 case TakeDelivery(id) => all[id].deliveryRx
                 case Process(id) => all[id].state == ReturnedToRuntime
                 case ExpireOrAlreadyExpired(id) => all[id].state == PendingState.Expired
                 case _ => false
  {
  }
}
