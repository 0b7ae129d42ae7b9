/** The invariant of one invoke, and that every action, purge and tick keeps it. */
module ProtocolInvariant {
  import opened Wrappers
  import opened Contract
  import opened Pending
  import opened Protocol
  import PendingLifecycle

  // ---------------------------------------------------------------------------
  // The log: every event has its cause before it
  // ---------------------------------------------------------------------------

  ghost predicate Caused(before: seq<Event>, e: Event, kind: InvokeKind, deadline: nat) {
    match e
    case Decision(_, reply, at) => Link.Fits(kind, reply) && at < deadline
    case Sent(reply) => reply.IsDecision() ==> exists c: nat, at: nat :: Decision(c, reply, at) in before
    case NativeOutput(reply) => Sent(reply) in before
    case AckSent(reply) => Sent(reply) in before && (NeedsOutput(kind, reply) ==> NativeOutput(reply) in before)
    case AckRead(reply) => AckSent(reply) in before
    case CommandCompleted(c, reply) => AckRead(reply) in before && exists at: nat :: Decision(c, reply, at) in before
    case CardRemoved => CardAdded in before
    case CardRemovedByCancel(shown) => shown <==> CardAdded in before
    case _ => true
  }

  ghost predicate WellCaused(log: seq<Event>, kind: InvokeKind, deadline: nat) {
    forall i :: 0 <= i < |log| ==> Caused(log[..i], log[i], kind, deadline)
  }

  lemma {:induction false} CausedAppend(log: seq<Event>, e: Event, kind: InvokeKind, deadline: nat)
    requires WellCaused(log, kind, deadline) && Caused(log, e, kind, deadline)
    ensures WellCaused(log + [e], kind, deadline)
  {
    forall i | 0 <= i < |log + [e]| ensures Caused((log + [e])[..i], (log + [e])[i], kind, deadline) {
      if i < |log| {
        assert (log + [e])[..i] == log[..i];
      } else {
        assert (log + [e])[..i] == log;
      }
    }
  }

  // ---------------------------------------------------------------------------
  // Counting events
  // ---------------------------------------------------------------------------

  /** The kinds of event that are counted. */
  datatype Tally = OfDecisions | OfSent | OfAdded | OfRemoved | OfCancelRemoved

  predicate Counts(t: Tally, e: Event) {
    match t
    case OfDecisions => e.Decision?
    case OfSent => e.Sent?
    case OfAdded => e.CardAdded?
    case OfRemoved => e.CardRemoved?
    case OfCancelRemoved => e.CardRemovedByCancel?
  }

  function Count(t: Tally, log: seq<Event>): nat {
    if log == [] then 0
    else Count(t, log[..|log| - 1]) + (if Counts(t, log[|log| - 1]) then 1 else 0)
  }

  lemma {:induction false} CountAppend(t: Tally, log: seq<Event>, e: Event)
    ensures Count(t, log + [e]) == Count(t, log) + (if Counts(t, e) then 1 else 0)
  {
    assert (log + [e])[..|log + [e]| - 1] == log;
  }

  function One(b: bool): nat {
    if b then 1 else 0
  }

  // ---------------------------------------------------------------------------
  // Where the record may stand
  // ---------------------------------------------------------------------------

  predicate Ended(record: Option<PendingRecord>) {
    record.None? || record.value.state.IsTerminal()
  }

  /** Open: no closing lock was taken yet. A decision in the channel keeps its record alive and
      Decided; otherwise the record waits or was ended by someone else. */
  predicate Open(l: Local) {
    var v := l.v;
    && v.outcome.None?
    && v.closing.None?
    && (v.slot.Some? ==> l.record.Some? && l.record.value.state == Decided)
    && (v.slot.None? ==>
          l.record.None? || l.record.value.state in {Waiting, PendingState.Expired, HandledLocally})
  }

  /** Without a cancel event nobody handles the invoke locally behind the handler's back. */
  predicate Undisturbed(l: Local) {
    CancelSeen !in l.v.log ==> l.record.None? || l.record.value.state != HandledLocally
  }

  predicate HoldsReply(l: Local, reply: HookReply) {
    if l.v.slot.Some? then reply == l.v.slot.value
    else
      && reply == HookReply.Cancelled
      && (l.record.None? || l.record.value.state in {PendingState.Expired, HandledLocally})
      && (CancelSeen !in l.v.log ==> l.record.None?)
  }

  /** Must the closing handler remove the card, given what the closing lock saw? */
  predicate MustRemove(c: Closing) {
    match c.branch
    case ByDecision => c.seen == Some(Decided)
    case ByTimeout => c.seen in {Some(Waiting), Some(PendingState.Expired), Some(Decided)}
    case ByLoss => c.seen in {Some(Waiting), Some(Decided)}
  }

  /** The removal the closing lock called for has been published. */
  predicate OwesRemoval(v: Invoke) {
    (v.handler.Refusing? || v.handler.Returned?) && v.closing.Some? && MustRemove(v.closing.value)
  }

  predicate CancelsOk(v: Invoke) {
    CancelSeen !in v.log ==> v.cancels == 0 && Count(OfCancelRemoved, v.log) == 0
  }

  predicate RemovalsOk(v: Invoke) {
    Count(OfRemoved, v.log) == One(Link.PublishesCard(v.info) && OwesRemoval(v))
  }

  // ---------------------------------------------------------------------------
  // The invariant, part by part
  // ---------------------------------------------------------------------------

  ghost predicate RecordOk(l: Local) {
    l.record.Some? ==>
      && l.record.value.info == l.v.info
      && l.record.value.deadline == l.v.deadline
      && PendingLifecycle.OwnsChannels(l.record.value)
      && (l.record.value.state == Waiting ==> l.v.slot.None?)
      && (l.record.value.state in {ReturnedToRuntime, RuntimeProcessed} <==> l.v.outcome == Some(Delivered))
      && (l.v.outcome == Some(Unconfirmed) ==> l.record.value.state == HandledLocally)
  }

  ghost predicate HandlerOk(l: Local) {
    var v := l.v;
    match v.handler
    case Registered =>
      v.receiverOpen && Open(l) && Undisturbed(l) && v.toHelper == []
      && (l.record.Some? && l.record.value.state == PendingState.Expired ==> l.record.value.responder)
    case Selecting =>
      v.receiverOpen && Open(l) && Undisturbed(l) && v.toHelper == []
      && (l.record.Some? && l.record.value.state == PendingState.Expired ==> l.record.value.responder)
    case Replying(r) => !v.receiverOpen && Open(l) && HoldsReply(l, r) && v.toHelper == []
    case AwaitingAck(r) => !v.receiverOpen && Open(l) && HoldsReply(l, r) && v.toHelper == [r]
    case Judged(r, delivered) =>
      !v.receiverOpen && Open(l) && HoldsReply(l, r) && (v.toHelper == [] || v.toHelper == [r]) && (delivered ==> AckRead(r) in v.log)
    case Reporting(delivered, moved) =>
      && !v.receiverOpen && Ended(l.record)
      && v.closing.Some? && v.closing.value.branch == ByDecision
      && moved == (v.closing.value.seen == Some(Decided)) == v.slot.Some?
      && v.outcome == (if moved then Some(if delivered then Delivered else Unconfirmed) else None)
      && (delivered && moved ==> AckRead(v.slot.value) in v.log)
      && (v.toHelper == [] || v.toHelper == [if moved then v.slot.value else HookReply.Cancelled])
    case Dropped(timedOut) =>
      !v.receiverOpen && Open(l) && v.toHelper == [] && (timedOut ==> l.now >= v.deadline && Undisturbed(l))
    case Unsettled(timedOut) =>
      && !v.receiverOpen && v.outcome.None? && v.toHelper == []
      && v.closing.Some? && v.closing.value.branch == (if timedOut then ByTimeout else ByLoss)
      && v.closing.value.seen != Some(Waiting)
      && !(timedOut && v.closing.value.seen == Some(PendingState.Expired))
      && (v.closing.value.seen == Some(Decided) <==> l.record.Some? && l.record.value.state == Decided)
      && (l.record.None? || l.record.value.state != Waiting)
    case Removing(remove) =>
      && !v.receiverOpen && v.outcome.None? && v.toHelper == [] && Ended(l.record)
      && v.closing.Some? && v.closing.value.branch != ByDecision && remove == MustRemove(v.closing.value)
    case Refusing =>
      && !v.receiverOpen && v.outcome.None? && v.toHelper == [] && Ended(l.record)
      && v.closing.Some? && v.closing.value.branch != ByDecision
    case Returned =>
      && !v.receiverOpen && Ended(l.record) && v.closing.Some?
      && (v.toHelper == [HookReply.Expired] ==> v.outcome.None?)
      && (v.closing.value.branch == ByDecision ==>
            (v.toHelper == [] || v.toHelper == [if v.slot.Some? then v.slot.value else HookReply.Cancelled]))
      && (v.closing.value.branch != ByDecision ==> (v.toHelper == [] || v.toHelper == [HookReply.Expired]))
      && (v.outcome == Some(Delivered) ==> v.slot.Some? && AckRead(v.slot.value) in v.log)
  }

  /** What a closing lock can have seen when nobody cancelled and nothing was purged. */
  ghost predicate ClosingOk(l: Local) {
    l.v.closing.Some? ==>
      && (l.v.closing.value.seen.None? ==> l.record.None?)
      && (CancelSeen !in l.v.log && l.record.Some? ==>
            && (l.v.closing.value.branch == ByDecision ==> l.v.closing.value.seen == Some(Decided))
            && (l.v.closing.value.branch == ByTimeout ==>
                  l.v.closing.value.seen in {Some(Waiting), Some(PendingState.Expired), Some(Decided)}))
  }

  ghost predicate CardsOk(l: Local) {
    var v := l.v;
    var visible := Link.PublishesCard(v.info);
    && Count(OfAdded, v.log) == One(visible && !v.handler.Registered?)
    && RemovalsOk(v)
    && CancelsOk(v)
  }

  /** At most one reply line; the helper only holds what was sent; an ack line of the helper
      stands for the reply it acknowledges. */
  ghost predicate ConnectionOk(l: Local) {
    var v := l.v;
    && |v.toHelper| <= 1
    && Count(OfSent, v.log) == |v.toHelper|
    && (forall r :: Sent(r) in v.log ==> v.toHelper == [r])
    && (v.toHelper != [] ==> Sent(v.toHelper[0]) in v.log)
    && ((v.helper.Holding? || v.helper.Printed? || v.helper.Acked?) ==> v.toHelper == [v.helper.reply])
    && (v.helper.Printed? && NeedsOutput(v.info.kind, v.helper.reply) ==> NativeOutput(v.helper.reply) in v.log)
    && (AckLine(v.id) in v.toBridge || v.monitor == Ready(Line(AckLine(v.id))) ==>
          v.toHelper != [] && AckSent(v.toHelper[0]) in v.log)
  }

  ghost predicate DecisionOk(l: Local) {
    var v := l.v;
    && WellCaused(v.log, v.info.kind, v.deadline)
    && Count(OfDecisions, v.log) == One(v.slot.Some?)
    && (forall e :: e in v.log && e.Decision? ==> v.slot == Some(e.reply))
    && (v.slot.Some? ==> Link.Fits(v.info.kind, v.slot.value)
                         && exists c: nat, at: nat :: Decision(c, v.slot.value, at) in v.log)
    && (v.outcome == Some(Delivered) ==> v.slot.Some? && AckRead(v.slot.value) in v.log)
    && (forall e :: e in v.log && e.CommandCompleted? ==> v.outcome == Some(Delivered))
  }

  ghost predicate CommandOk(l: Local, c: nat)
    requires c in l.v.commands
  {
    match l.v.commands[c]
    case Matched(p) => Asked(l.v, c, p) && Link.KindFits(l.v.info, p)
    case Labelled(p, chosen) => Asked(l.v, c, p) && Link.KindFits(l.v.info, p) && Link.LabelAnswers(l.v.info, p, chosen)
    case Composed(reply) => c in l.v.asked && Link.Answers(l.v.info, l.v.asked[c], reply)
    case Locked(reply, at) => Decision(c, reply, at) in l.v.log
    case Awaiting(reply, at) => Decision(c, reply, at) in l.v.log
    case Reported(receipt) => receipt == Completed ==> exists reply :: CommandCompleted(c, reply) in l.v.log
  }

  predicate Asked(v: Invoke, c: nat, p: Link.Payload) {
    c in v.asked && v.asked[c] == p
  }

  ghost predicate CommandsOk(l: Local) {
    && l.v.asked.Keys == l.v.commands.Keys
    && forall c :: c in l.v.commands ==> CommandOk(l, c)
  }

  /** Every accepted decision is the answer of its own command's payload. */
  ghost predicate ChoicesOk(l: Local) {
    forall e :: e in l.v.log && e.Decision? ==>
      e.command in l.v.asked && Link.Answers(l.v.info, l.v.asked[e.command], e.reply)
  }

  /** The handler judges delivery by the ack that was read, and publishes that judgement. */
  ghost predicate AckOk(l: Local) {
    var v := l.v;
    match v.handler
    case Judged(r, delivered) => delivered <==> AckRead(r) in v.log
    case Reporting(delivered, moved) => moved ==> v.slot.Some? && (delivered <==> AckRead(v.slot.value) in v.log)
    case Returned =>
      && v.closing.Some?
      && (v.closing.value.branch == ByDecision && v.slot.Some? ==>
            v.outcome == Some(if AckRead(v.slot.value) in v.log then Delivered else Unconfirmed))
      && (v.closing.value.branch != ByDecision ==> forall r :: AckRead(r) !in v.log)
    case _ => forall r :: AckRead(r) !in v.log
  }

  ghost predicate Inv(l: Local) {
    RecordOk(l) && HandlerOk(l) && ClosingOk(l) && CardsOk(l) && ConnectionOk(l) && DecisionOk(l) && CommandsOk(l)
    && ChoicesOk(l) && AckOk(l)
  }

  // ---------------------------------------------------------------------------
  // Preservation, one lemma for each part
  // ---------------------------------------------------------------------------

  lemma {:induction false} SettlementKeepsRecord(l: Local, a: Action)
    requires RecordOk(l) && HandlerOk(l) && Enabled(l, a) && (a.CompleteDelivery? || a.SettleFirst? || a.SettleRace?)
    ensures RecordOk(Act(l, a))
  {
  }

  lemma {:induction false} ResolveKeepsRecord(l: Local, a: Action)
    requires RecordOk(l) && HandlerOk(l) && Enabled(l, a) && a.CommandResolve?
    ensures RecordOk(Act(l, a))
  {
  }

  lemma {:induction false} RecordKept(l: Local, a: Action)
    requires RecordOk(l) && HandlerOk(l) && Enabled(l, a)
    ensures RecordOk(Act(l, a))
  {
    if a.CompleteDelivery? || a.SettleFirst? || a.SettleRace? {
      SettlementKeepsRecord(l, a);
    } else if a.CommandResolve? {
      ResolveKeepsRecord(l, a);
    } else if l.record.Some? {
      assert Act(l, a).v.slot == l.v.slot && Act(l, a).v.outcome == l.v.outcome;
    }
  }

  lemma {:induction false} CompleteClosesWell(l: Local)
    requires HandlerOk(l) && ClosingOk(l) && Enabled(l, CompleteDelivery)
    ensures ClosingOk(Act(l, CompleteDelivery))
  {
  }

  lemma {:induction false} SettleClosesWell(l: Local)
    requires HandlerOk(l) && ClosingOk(l) && Enabled(l, SettleFirst)
    ensures ClosingOk(Act(l, SettleFirst))
  {
  }

  /** Only two actions close; the others leave the closing as it was. */
  lemma {:induction false} ClosingKept(l: Local, a: Action)
    requires HandlerOk(l) && ClosingOk(l) && Enabled(l, a)
    ensures ClosingOk(Act(l, a))
  {
    if a.CompleteDelivery? {
      CompleteClosesWell(l);
    } else if a.SettleFirst? {
      SettleClosesWell(l);
    } else {
      assert Act(l, a).v.closing == l.v.closing;
      assert CancelSeen in l.v.log ==> CancelSeen in Act(l, a).v.log;
    }
  }

  /** The handler's own actions. */
  predicate IsHandlerAction(a: Action) {
    a.PublishCard? || a.TakeDecision? || a.TakeClosedChannel? || a.TakeConnEvent? || a.TakeTimeout? || a.WriteReply?
    || a.JudgeAck? || a.AckTimeout? || a.CompleteDelivery? || a.PublishOutcome? || a.SettleFirst? || a.SettleRace?
    || a.PublishRemoval? || a.WriteExpired?
  }

  lemma {:induction false} HandlerAdvances(l: Local, a: Action)
    requires RecordOk(l) && HandlerOk(l) && ClosingOk(l) && Enabled(l, a) && IsHandlerAction(a)
    requires l.v.slot.Some? ==> Link.Fits(l.v.info.kind, l.v.slot.value)
    ensures HandlerOk(Act(l, a))
  {
  }

  lemma {:induction false} ResolveKeepsHandler(l: Local, a: Action)
    requires RecordOk(l) && HandlerOk(l) && Enabled(l, a) && a.CommandResolve?
    ensures HandlerOk(Act(l, a))
  {
  }

  lemma {:induction false} CancelKeepsHandler(l: Local, a: Action)
    requires RecordOk(l) && HandlerOk(l) && Enabled(l, a) && (a.CancelLock? || a.Process?)
    ensures HandlerOk(Act(l, a))
  {
  }

  /** Nothing the handler's part of the invariant reads has changed, but for more log. */
  ghost predicate HandlerFramed(l: Local, m: Local) {
    && m.record.Some? == l.record.Some?
    && (l.record.Some? ==> m.record.value.state == l.record.value.state && m.record.value.responder == l.record.value.responder)
    && l.now <= m.now
    && m.v.handler == l.v.handler && m.v.receiverOpen == l.v.receiverOpen
    && m.v.slot == l.v.slot && m.v.outcome == l.v.outcome && m.v.closing == l.v.closing
    && m.v.toHelper == l.v.toHelper && m.v.deadline == l.v.deadline
    && (forall e :: e in l.v.log ==> e in m.v.log)
    && (CancelSeen in m.v.log ==> CancelSeen in l.v.log)
  }

  lemma {:induction false} FramedHandlerOk(l: Local, m: Local)
    requires HandlerOk(l) && HandlerFramed(l, m)
    ensures HandlerOk(m)
  {
  }

  lemma {:induction false} OthersKeepHandler(l: Local, a: Action)
    requires HandlerOk(l) && Enabled(l, a)
    requires !IsHandlerAction(a) && !a.CommandResolve? && !a.CancelLock? && !a.Process?
    ensures HandlerOk(Act(l, a))
  {
    assert HandlerFramed(l, Act(l, a));
    FramedHandlerOk(l, Act(l, a));
  }

  lemma {:induction false} CountEmits(t: Tally, l: Local, a: Action)
    requires Enabled(l, a)
    ensures Count(t, Act(l, a).v.log)
         == Count(t, l.v.log) + (if Emits(l, a) != [] && Counts(t, Emits(l, a)[0]) then 1 else 0)
  {
    if Emits(l, a) == [] {
      assert l.v.log + Emits(l, a) == l.v.log;
    } else {
      assert Emits(l, a) == [Emits(l, a)[0]];
      CountAppend(t, l.v.log, Emits(l, a)[0]);
    }
  }

  lemma {:induction false} AddedKept(l: Local, a: Action)
    requires CardsOk(l) && Enabled(l, a)
    ensures Count(OfAdded, Act(l, a).v.log) == One(Link.PublishesCard(Act(l, a).v.info) && !Act(l, a).v.handler.Registered?)
  {
    CountEmits(OfAdded, l, a);
  }

  lemma {:induction false} OutcomePublished(l: Local)
    requires HandlerOk(l) && Enabled(l, PublishOutcome) && RemovalsOk(l.v)
    ensures RemovalsOk(Act(l, PublishOutcome).v)
  {
    CountEmits(OfRemoved, l, PublishOutcome);
    var v := Act(l, PublishOutcome).v;
    assert !OwesRemoval(l.v);
    assert v.closing == l.v.closing && OwesRemoval(v) == l.v.handler.moved;
  }

  lemma {:induction false} RemovalPublished(l: Local)
    requires HandlerOk(l) && Enabled(l, PublishRemoval) && RemovalsOk(l.v)
    ensures RemovalsOk(Act(l, PublishRemoval).v)
  {
    CountEmits(OfRemoved, l, PublishRemoval);
    var v := Act(l, PublishRemoval).v;
    assert !OwesRemoval(l.v);
    assert v.closing == l.v.closing && OwesRemoval(v) == l.v.handler.remove;
  }

  /** The rest of the handler's actions happen before a removal is owed, or after it was published. */
  lemma {:induction false} OwedUntouched(l: Local, a: Action)
    requires HandlerOk(l) && Enabled(l, a) && IsHandlerAction(a) && !a.PublishOutcome? && !a.PublishRemoval?
    ensures OwesRemoval(InvokeAfter(l, a)) == OwesRemoval(l.v)
  {
  }

  lemma {:induction false} RemovalUntouched(l: Local, a: Action)
    requires Enabled(l, a) && RemovalsOk(l.v) && !a.PublishOutcome? && !a.PublishRemoval?
    requires OwesRemoval(Act(l, a).v) == OwesRemoval(l.v)
    ensures RemovalsOk(Act(l, a).v)
  {
    CountEmits(OfRemoved, l, a);
  }

  lemma {:induction false} RemovedKept(l: Local, a: Action)
    requires HandlerOk(l) && Enabled(l, a) && RemovalsOk(l.v)
    ensures RemovalsOk(Act(l, a).v)
  {
    if a.PublishOutcome? {
      OutcomePublished(l);
    } else if a.PublishRemoval? {
      RemovalPublished(l);
    } else {
      if IsHandlerAction(a) {
        OwedUntouched(l, a);
      }
      RemovalUntouched(l, a);
    }
  }

  lemma {:induction false} CancelLogged(l: Local, a: Action)
    requires Enabled(l, a) && CancelsOk(l.v) && (a.CancelLock? || a.CancelPublish?)
    ensures CancelsOk(Act(l, a).v)
  {
    if a.CancelLock? {
      assert Act(l, a).v.log[|l.v.log|] == CancelSeen;
    } else {
      assert CancelSeen in l.v.log;
    }
  }

  lemma {:induction false} CancelsUntouched(l: Local, a: Action)
    requires Enabled(l, a) && CancelsOk(l.v) && !a.CancelLock? && !a.CancelPublish?
    ensures CancelsOk(Act(l, a).v)
  {
    CountEmits(OfCancelRemoved, l, a);
    assert Act(l, a).v.cancels == l.v.cancels;
  }

  lemma {:induction false} CancelsKept(l: Local, a: Action)
    requires Enabled(l, a) && CancelsOk(l.v)
    ensures CancelsOk(Act(l, a).v)
  {
    if a.CancelLock? || a.CancelPublish? {
      CancelLogged(l, a);
    } else {
      CancelsUntouched(l, a);
    }
  }

  lemma {:induction false} CardsKept(l: Local, a: Action)
    requires HandlerOk(l) && CardsOk(l) && Enabled(l, a)
    ensures CardsOk(Act(l, a))
  {
    AddedKept(l, a);
    RemovedKept(l, a);
    CancelsKept(l, a);
  }

  ghost predicate ConnectionFramed(l: Local, m: Local) {
    && m.v.toHelper == l.v.toHelper && m.v.toBridge == l.v.toBridge && m.v.helper == l.v.helper
    && (m.v.monitor == l.v.monitor || m.v.monitor == Taken)
    && m.v.id == l.v.id && m.v.info == l.v.info
    && (forall e :: e in l.v.log ==> e in m.v.log)
    && (forall e :: e in m.v.log && e.Sent? ==> e in l.v.log)
    && Count(OfSent, m.v.log) == Count(OfSent, l.v.log)
  }

  lemma {:induction false} FramedConnectionOk(l: Local, m: Local)
    requires ConnectionOk(l) && ConnectionFramed(l, m)
    ensures ConnectionOk(m)
  {
  }

  /** The first line on the connection. */
  lemma {:induction false} FirstLineKeepsConnection(l: Local, m: Local, reply: HookReply)
    requires ConnectionOk(l) && l.v.toHelper == []
    requires m.v.toHelper == [reply] && m.v.log == l.v.log + [Sent(reply)]
    requires m.v.toBridge == l.v.toBridge && m.v.helper == l.v.helper && m.v.monitor == l.v.monitor
    requires m.v.id == l.v.id && m.v.info == l.v.info
    ensures ConnectionOk(m)
  {
    CountAppend(OfSent, l.v.log, Sent(reply));
    assert m.v.log[|l.v.log|] == Sent(reply);
  }

  lemma {:induction false} WritesKeepConnection(l: Local, a: Action)
    requires HandlerOk(l) && ConnectionOk(l) && Enabled(l, a) && (a.WriteReply? || a.WriteExpired?)
    ensures ConnectionOk(Act(l, a))
  {
    var m := Act(l, a);
    assert l.v.toHelper == [];
    if a.reached {
      var reply := if a.WriteReply? then l.v.handler.reply else HookReply.Expired;
      assert m.v.toHelper == [reply];
      FirstLineKeepsConnection(l, m, reply);
    } else {
      assert m.v.log == l.v.log;
      FramedConnectionOk(l, m);
    }
  }

  lemma {:induction false} PeersKeepConnection(l: Local, a: Action)
    requires ConnectionOk(l) && Enabled(l, a)
    requires a.MonitorLine? || a.MonitorClosed? || a.HelperRead? || a.HelperCrash? || a.HelperStray?
    ensures ConnectionOk(Act(l, a))
  {
    CountEmits(OfSent, l, a);
    assert Act(l, a).v.log == l.v.log;
  }

  lemma {:induction false} HelperKeepsConnection(l: Local, a: Action)
    requires ConnectionOk(l) && Enabled(l, a) && (a.HelperPrint? || a.HelperAck?)
    ensures ConnectionOk(Act(l, a))
  {
    CountEmits(OfSent, l, a);
  }

  lemma {:induction false} ConnectionKept(l: Local, a: Action)
    requires HandlerOk(l) && ConnectionOk(l) && Enabled(l, a)
    ensures ConnectionOk(Act(l, a))
  {
    if a.WriteReply? || a.WriteExpired? {
      WritesKeepConnection(l, a);
    } else if a.MonitorLine? || a.MonitorClosed? || a.HelperRead? || a.HelperCrash? || a.HelperStray? {
      PeersKeepConnection(l, a);
    } else if a.HelperPrint? || a.HelperAck? {
      HelperKeepsConnection(l, a);
    } else {
      OthersFrameConnection(l, a);
      FramedConnectionOk(l, Act(l, a));
    }
  }

  lemma {:induction false} EmitsAtMostOne(l: Local, a: Action)
    requires Enabled(l, a)
    ensures |Emits(l, a)| <= 1 && Act(l, a).v.log == l.v.log + Emits(l, a)
    ensures (exists i :: 0 <= i < |Emits(l, a)| && Emits(l, a)[i].Sent?) ==> a.WriteReply? || a.WriteExpired?
    ensures (exists i :: 0 <= i < |Emits(l, a)| && Emits(l, a)[i].Decision?) ==> a.CommandResolve?
    ensures (exists i :: 0 <= i < |Emits(l, a)| && Emits(l, a)[i].CommandCompleted?) ==> l.v.outcome == Some(Delivered)
  {
  }

  lemma {:induction false} CountUnchanged(t: Tally, log: seq<Event>, emitted: seq<Event>)
    requires |emitted| <= 1 && forall i :: 0 <= i < |emitted| ==> !Counts(t, emitted[i])
    ensures Count(t, log + emitted) == Count(t, log)
  {
    if emitted == [] {
      assert log + emitted == log;
    } else {
      assert emitted == [emitted[0]];
      CountAppend(t, log, emitted[0]);
    }
  }

  /** What the rest of the actions leave of the connection. */
  lemma {:induction false} ConnectionFieldsKept(l: Local, a: Action)
    requires Enabled(l, a) && !a.WriteReply? && !a.WriteExpired?
    requires IsHandlerAction(a) || IsCommandAction(a) || a.CancelLock? || a.CancelPublish? || a.Process?
    ensures var v, m := l.v, InvokeAfter(l, a);
            && m.toHelper == v.toHelper && m.toBridge == v.toBridge && m.helper == v.helper
            && (m.monitor == v.monitor || m.monitor == Taken) && m.id == v.id && m.info == v.info
  {
  }

  lemma {:induction false} OthersFrameConnection(l: Local, a: Action)
    requires Enabled(l, a) && !a.WriteReply? && !a.WriteExpired?
    requires IsHandlerAction(a) || IsCommandAction(a) || a.CancelLock? || a.CancelPublish? || a.Process?
    ensures ConnectionFramed(l, Act(l, a))
  {
    ConnectionFieldsKept(l, a);
    EmitsAtMostOne(l, a);
    CountUnchanged(OfSent, l.v.log, Emits(l, a));
  }

  // ----- decisions, their causes, and the commands -----

  lemma {:induction false} CountedIsThere(t: Tally, log: seq<Event>)
    ensures Count(t, log) > 0 <==> exists i :: 0 <= i < |log| && Counts(t, log[i])
    decreases |log|
  {
    if log != [] {
      var before := log[..|log| - 1];
      CountedIsThere(t, before);
      assert forall i :: 0 <= i < |before| ==> before[i] == log[i];
    }
  }

  /** The card has been published exactly if the log says so. */
  lemma {:induction false} AddedIsLogged(l: Local)
    requires CardsOk(l)
    ensures CardAdded in l.v.log <==> Link.PublishesCard(l.v.info) && !l.v.handler.Registered?
  {
    CountedIsThere(OfAdded, l.v.log);
    if CardAdded in l.v.log {
      var i :| 0 <= i < |l.v.log| && l.v.log[i] == CardAdded;
      assert Counts(OfAdded, l.v.log[i]);
    }
  }

  lemma {:induction false} RemovalIsCaused(l: Local, a: Action)
    requires CardsOk(l) && Enabled(l, a) && Emits(l, a) != []
    requires a.PublishOutcome? || a.PublishRemoval? || a.CancelPublish?
    ensures Caused(l.v.log, Emits(l, a)[0], l.v.info.kind, l.v.deadline)
  {
    AddedIsLogged(l);
  }

  lemma {:induction false} ExchangeIsCaused(l: Local, a: Action)
    requires Inv(l) && Enabled(l, a) && Emits(l, a) != []
    requires !a.PublishOutcome? && !a.PublishRemoval? && !a.CancelPublish?
    ensures Caused(l.v.log, Emits(l, a)[0], l.v.info.kind, l.v.deadline)
  {
  }

  lemma {:induction false} EmittedIsCaused(l: Local, a: Action)
    requires Inv(l) && Enabled(l, a) && Emits(l, a) != []
    ensures Caused(l.v.log, Emits(l, a)[0], l.v.info.kind, l.v.deadline)
  {
    if a.PublishOutcome? || a.PublishRemoval? || a.CancelPublish? {
      RemovalIsCaused(l, a);
    } else {
      ExchangeIsCaused(l, a);
    }
  }

  lemma {:induction false} CausesKept(l: Local, a: Action)
    requires Inv(l) && Enabled(l, a)
    ensures WellCaused(Act(l, a).v.log, l.v.info.kind, l.v.deadline)
  {
    var emitted := Emits(l, a);
    if emitted == [] {
      assert l.v.log + emitted == l.v.log;
    } else {
      EmittedIsCaused(l, a);
      assert emitted == [emitted[0]];
      CausedAppend(l.v.log, emitted[0], l.v.info.kind, l.v.deadline);
    }
  }

  lemma {:induction false} DecisionMade(l: Local, m: Local, c: nat, reply: HookReply, at: nat)
    requires DecisionOk(l) && l.v.slot.None? && l.v.outcome != Some(Delivered) && Link.Fits(l.v.info.kind, reply)
    requires m.v.slot == Some(reply) && m.v.outcome == l.v.outcome && m.v.info == l.v.info && m.v.deadline == l.v.deadline
    requires m.v.log == l.v.log + [Decision(c, reply, at)] && WellCaused(m.v.log, m.v.info.kind, m.v.deadline)
    ensures DecisionOk(m)
  {
    CountAppend(OfDecisions, l.v.log, Decision(c, reply, at));
    assert m.v.log[|l.v.log|] == Decision(c, reply, at);
  }

  lemma {:induction false} AnswersFit(info: InvokeInfo, p: Link.Payload, reply: HookReply)
    requires Link.Answers(info, p, reply)
    ensures Link.Fits(info.kind, reply)
  {
  }

  lemma {:induction false} ResolveKeepsDecision(l: Local, c: nat)
    requires RecordOk(l) && DecisionOk(l) && CommandsOk(l) && Enabled(l, CommandResolve(c))
    requires WellCaused(Act(l, CommandResolve(c)).v.log, l.v.info.kind, l.v.deadline)
    ensures DecisionOk(Act(l, CommandResolve(c)))
  {
    var m := Act(l, CommandResolve(c));
    assert CommandOk(l, c);
    if Resolves(l) {
      assert l.v.slot.None?;
      AnswersFit(l.v.info, l.v.asked[c], l.v.commands[c].reply);
      DecisionMade(l, m, c, l.v.commands[c].reply, l.now);
    } else {
      assert m.v.log == l.v.log;
      FramedDecisionOk(l, m);
    }
  }

  lemma {:induction false} CompleteKeepsDecision(l: Local)
    requires HandlerOk(l) && DecisionOk(l) && Enabled(l, CompleteDelivery)
    ensures DecisionOk(Act(l, CompleteDelivery))
  {
    assert Act(l, CompleteDelivery).v.log == l.v.log;
  }

  /** Nothing decisive has changed, but for more log. */
  ghost predicate DecisionFramed(l: Local, m: Local) {
    && m.v.slot == l.v.slot && m.v.outcome == l.v.outcome && m.v.info == l.v.info && m.v.deadline == l.v.deadline
    && (forall e :: e in l.v.log ==> e in m.v.log)
    && (forall e :: e in m.v.log && e.Decision? ==> e in l.v.log)
    && (forall e :: e in m.v.log && e.CommandCompleted? ==> e in l.v.log || l.v.outcome == Some(Delivered))
    && Count(OfDecisions, m.v.log) == Count(OfDecisions, l.v.log)
  }

  lemma {:induction false} FramedDecisionOk(l: Local, m: Local)
    requires DecisionOk(l) && DecisionFramed(l, m) && WellCaused(m.v.log, m.v.info.kind, m.v.deadline)
    ensures DecisionOk(m)
  {
  }

  lemma {:induction false} DecisionFieldsKept(l: Local, a: Action)
    requires Enabled(l, a) && !a.CommandResolve? && !a.CompleteDelivery?
    ensures var v, m := l.v, InvokeAfter(l, a);
            m.slot == v.slot && m.outcome == v.outcome && m.info == v.info && m.deadline == v.deadline
  {
  }

  lemma {:induction false} OthersFrameDecision(l: Local, a: Action)
    requires Enabled(l, a) && !a.CommandResolve? && !a.CompleteDelivery?
    ensures DecisionFramed(l, Act(l, a))
  {
    DecisionFieldsKept(l, a);
    EmitsAtMostOne(l, a);
    CountUnchanged(OfDecisions, l.v.log, Emits(l, a));
  }

  lemma {:induction false} DecisionKept(l: Local, a: Action)
    requires Inv(l) && Enabled(l, a)
    ensures DecisionOk(Act(l, a))
  {
    CausesKept(l, a);
    if a.CommandResolve? {
      ResolveKeepsDecision(l, a.command);
    } else if a.CompleteDelivery? {
      CompleteKeepsDecision(l);
    } else {
      OthersFrameDecision(l, a);
      FramedDecisionOk(l, Act(l, a));
    }
  }

  lemma {:induction false} ComposingKept(l: Local, a: Action)
    requires RecordOk(l) && CommandsOk(l) && Enabled(l, a) && (a.CommandLabel? || a.CommandCompose?)
    ensures CommandOk(Act(l, a), a.command)
  {
    assert CommandOk(l, a.command);
    var stage := l.v.commands[a.command];
    if a.CommandLabel? {
      if Link.ChosenLabel(stage.payload, l.record).Ok? {
        Link.LabelChosen(l.v.info, stage.payload, l.record);
      }
    } else if Link.ComposedReply(stage.payload, stage.chosen, l.record).Ok? {
      Link.ReplyComposed(l.v.info, stage.payload, stage.chosen, l.record);
    }
  }

  lemma {:induction false} OwnCommandKept(l: Local, a: Action)
    requires RecordOk(l) && CommandsOk(l) && Enabled(l, a) && IsCommandAction(a)
    ensures CommandOk(Act(l, a), a.command)
  {
    if a.CommandLabel? || a.CommandCompose? {
      ComposingKept(l, a);
    } else if !a.CommandMatch? {
      assert CommandOk(l, a.command);
      if Emits(l, a) != [] {
        assert Emits(l, a)[0] in Act(l, a).v.log;
      }
    }
  }

  lemma {:induction false} OtherCommandKept(l: Local, a: Action, c: nat)
    requires Enabled(l, a) && c in l.v.commands && c in l.v.asked && CommandOk(l, c) && !(IsCommandAction(a) && a.command == c)
    ensures c in Act(l, a).v.commands && CommandOk(Act(l, a), c)
  {
    assert Act(l, a).v.commands[c] == l.v.commands[c] && Act(l, a).v.info == l.v.info;
    assert c in Act(l, a).v.asked && Act(l, a).v.asked[c] == l.v.asked[c];
    assert forall e :: e in l.v.log ==> e in Act(l, a).v.log;
  }

  lemma {:induction false} CommandsKept(l: Local, a: Action)
    requires RecordOk(l) && CommandsOk(l) && Enabled(l, a)
    ensures CommandsOk(Act(l, a))
  {
    var m := Act(l, a);
    forall c | c in m.v.commands ensures CommandOk(m, c) {
      if IsCommandAction(a) && a.command == c {
        OwnCommandKept(l, a);
      } else {
        OtherCommandKept(l, a, c);
      }
    }
  }

  lemma {:induction false} AskedGrows(l: Local, a: Action)
    requires CommandsOk(l) && Enabled(l, a)
    ensures forall c :: c in l.v.asked ==> c in Act(l, a).v.asked && Act(l, a).v.asked[c] == l.v.asked[c]
    ensures Act(l, a).v.info == l.v.info && Act(l, a).v.asked.Keys == Act(l, a).v.commands.Keys
  {
  }

  lemma {:induction false} ChoicesKept(l: Local, a: Action)
    requires CommandsOk(l) && ChoicesOk(l) && Enabled(l, a)
    ensures ChoicesOk(Act(l, a))
  {
    AskedGrows(l, a);
    EmitsAtMostOne(l, a);
    if a.CommandResolve? {
      assert CommandOk(l, a.command);
    }
  }

  lemma {:induction false} JudgingKept(l: Local, a: Action)
    requires HandlerOk(l) && AckOk(l) && Enabled(l, a) && IsHandlerAction(a)
    ensures AckOk(Act(l, a))
  {
    EmitsAtMostOne(l, a);
  }

  lemma {:induction false} AcksUntouched(l: Local, a: Action)
    requires HandlerOk(l) && AckOk(l) && Enabled(l, a) && !IsHandlerAction(a)
    ensures AckOk(Act(l, a))
  {
    ClosedIsDeaf(l);
    AckFieldsKept(l, a);
    FramedAckOk(l, Act(l, a));
  }

  ghost predicate AckFramed(l: Local, m: Local) {
    && m.v.handler == l.v.handler && m.v.closing == l.v.closing && m.v.outcome == l.v.outcome
    && (l.v.handler.Returned? || l.v.handler.Reporting? ==> m.v.slot == l.v.slot)
    && forall r :: AckRead(r) in m.v.log <==> AckRead(r) in l.v.log
  }

  lemma {:induction false} FramedAckOk(l: Local, m: Local)
    requires AckOk(l) && AckFramed(l, m)
    ensures AckOk(m)
  {
  }

  lemma {:induction false} ClosedIsDeaf(l: Local)
    requires HandlerOk(l)
    ensures l.v.handler.Returned? || l.v.handler.Reporting? ==> !l.v.receiverOpen
  {
  }

  lemma {:induction false} AckFieldsKept(l: Local, a: Action)
    requires Enabled(l, a) && !IsHandlerAction(a)
    requires l.v.handler.Returned? || l.v.handler.Reporting? ==> !l.v.receiverOpen
    ensures AckFramed(l, Act(l, a))
  {
    EmitsAtMostOne(l, a);
  }

  lemma {:induction false} ActKeepsInv(l: Local, a: Action)
    requires Inv(l) && Enabled(l, a)
    ensures Inv(Act(l, a))
  {
    RecordKept(l, a);
    ClosingKept(l, a);
    if IsHandlerAction(a) {
      HandlerAdvances(l, a);
    } else if a.CommandResolve? {
      ResolveKeepsHandler(l, a);
    } else if a.CancelLock? || a.Process? {
      CancelKeepsHandler(l, a);
    } else {
      OthersKeepHandler(l, a);
    }
    CardsKept(l, a);
    ConnectionKept(l, a);
    DecisionKept(l, a);
    CommandsKept(l, a);
    ChoicesKept(l, a);
    if IsHandlerAction(a) {
      JudgingKept(l, a);
    } else {
      AcksUntouched(l, a);
    }
  }

  /** Time passes; another registration purges this invoke's ended record. */
  lemma {:induction false} EnvironmentKeepsInv(l: Local, now: nat, purged: bool)
    requires Inv(l) && l.now <= now && (purged ==> Ended(l.record))
    ensures Inv(Local(if purged then None else l.record, l.v, now))
  {
  }
}
