/** What every run of the remote-decision protocol guarantees. */
module ProtocolTheorems {
  import opened Wrappers
  import opened Contract
  import opened Pending
  import opened Protocol
  import opened ProtocolInvariant

  ghost predicate SystemInv(s: System) {
    && s.registry.Keys <= s.invokes.Keys
    && forall id :: id in s.invokes ==> s.invokes[id].id == id && Inv(View(s, id))
  }

  lemma {:induction false} NewInvokeInv(id: string, info: InvokeInfo, now: nat, wait: nat)
    ensures Inv(Local(Some(NewRecord(info, now, wait)), NewInvoke(id, info, now + wait), now))
  {
  }

  lemma {:induction false} RegisterKeepsInv(s: System, id: string, info: InvokeInfo, wait: nat)
    requires SystemInv(s) && StepEnabled(s, Register(id, info, wait)) && id !in s.registry
    ensures SystemInv(Next(s, Register(id, info, wait)))
  {
    var next := Next(s, Register(id, info, wait));
    forall k | k in next.invokes ensures next.invokes[k].id == k && Inv(View(next, k)) {
      if k == id {
        NewInvokeInv(id, info, s.now, wait);
      } else {
        EnvironmentKeepsInv(View(s, k), s.now, k in s.registry && k !in next.registry);
      }
    }
  }

  lemma {:induction false} TickKeepsInv(s: System, elapsed: nat)
    requires SystemInv(s)
    ensures SystemInv(Next(s, Tick(elapsed)))
  {
    var next := Next(s, Tick(elapsed));
    forall k | k in next.invokes ensures Inv(View(next, k)) {
      EnvironmentKeepsInv(View(s, k), next.now, false);
    }
  }

  lemma {:induction false} ActViews(s: System, id: string, a: Action, k: string)
    requires StepEnabled(s, At(id, a)) && k in s.invokes
    ensures View(Next(s, At(id, a)), k) == if k == id then Act(View(s, id), a) else View(s, k)
  {
  }

  lemma {:induction false} AtKeepsInv(s: System, id: string, a: Action)
    requires SystemInv(s) && StepEnabled(s, At(id, a))
    ensures SystemInv(Next(s, At(id, a)))
  {
    var next := Next(s, At(id, a));
    forall k | k in next.invokes ensures next.invokes[k].id == k && Inv(View(next, k)) {
      ActViews(s, id, a, k);
      if k == id {
        ActKeepsInv(View(s, id), a);
      }
    }
  }

  lemma {:induction false} StepKeepsInv(s: System, step: Step)
    requires SystemInv(s) && StepEnabled(s, step)
    ensures SystemInv(Next(s, step))
  {
    match step
    case Tick(elapsed) => TickKeepsInv(s, elapsed);
    case Register(id, info, wait) =>
      if id !in s.registry {
        RegisterKeepsInv(s, id, info, wait);
      }
    case At(id, a) => AtKeepsInv(s, id, a);
  }

  lemma {:induction false} RunKeepsInv(run: seq<Step>)
    requires After(run).Some?
    ensures SystemInv(After(run).value)
  {
    if run != [] {
      RunKeepsInv(run[..|run| - 1]);
      StepKeepsInv(After(run[..|run| - 1]).value, run[|run| - 1]);
    }
  }

  // ---------------------------------------------------------------------------
  // COMPLETED is honest
  // ---------------------------------------------------------------------------

  lemma {:induction false} CountAtLeast(t: Tally, log: seq<Event>, i: nat)
    requires i < |log| && Counts(t, log[i])
    ensures Count(t, log) >= 1 + Count(t, log[..i])
  {
    var rest := log[..|log| - 1];
    if i == |log| - 1 {
    } else {
      CountAtLeast(t, rest, i);
      assert rest[..i] == log[..i];
    }
  }

  lemma {:induction false} CountedOnce(t: Tally, log: seq<Event>, i: nat, j: nat)
    requires Count(t, log) <= 1
    requires i < |log| && j < |log| && Counts(t, log[i]) && Counts(t, log[j])
    ensures i == j
  {
    if i < j {
      CountAtLeast(t, log, j);
      CountAtLeast(t, log[..j], i);
    } else if j < i {
      CountAtLeast(t, log, i);
      CountAtLeast(t, log[..i], j);
    }
  }

  lemma {:induction false} EarlierCause(log: seq<Event>, i: nat, e: Event) returns (j: nat)
    requires i <= |log| && e in log[..i]
    ensures j < i && log[j] == e
  {
    j :| j < i && log[..i][j] == e;
  }

  /** Behind a read ack: the reply was written, then printed natively, then acknowledged. */
  lemma {:induction false} AckChain(log: seq<Event>, kind: InvokeKind, deadline: nat, k: nat) returns (s: nat, o: nat)
    requires WellCaused(log, kind, deadline)
    requires k < |log| && log[k].AckRead? && NeedsOutput(kind, log[k].reply)
    ensures s < o < k && log[s] == Sent(log[k].reply) && log[o] == NativeOutput(log[k].reply)
  {
    var reply := log[k].reply;
    assert Caused(log[..k], log[k], kind, deadline);
    var q := EarlierCause(log, k, AckSent(reply));
    assert Caused(log[..q], log[q], kind, deadline);
    o := EarlierCause(log, q, NativeOutput(reply));
    assert Caused(log[..o], log[o], kind, deadline);
    s := EarlierCause(log, o, Sent(reply));
  }

  /** Before a written decision, that very decision was accepted. */
  lemma {:induction false} SentChain(log: seq<Event>, kind: InvokeKind, deadline: nat, s: nat) returns (d: nat)
    requires WellCaused(log, kind, deadline)
    requires s < |log| && log[s].Sent? && log[s].reply.IsDecision()
    ensures d < s && log[d].Decision? && log[d].reply == log[s].reply
    ensures log[d].at < deadline && Link.Fits(kind, log[d].reply)
  {
    assert Caused(log[..s], log[s], kind, deadline);
    var c: nat, at: nat :| Decision(c, log[s].reply, at) in log[..s];
    d := EarlierCause(log, s, Decision(c, log[s].reply, at));
    assert Caused(log[..d], log[d], kind, deadline);
  }

  lemma {:induction false} CompletedChain(log: seq<Event>, kind: InvokeKind, deadline: nat, r: nat)
      returns (d: nat, s: nat, o: nat, k: nat)
    requires WellCaused(log, kind, deadline) && Count(OfDecisions, log) <= 1
    requires r < |log| && log[r].CommandCompleted?
    ensures d < s < o < k < r
    ensures log[d].Decision? && log[d].command == log[r].command && log[d].reply == log[r].reply
    ensures log[d].at < deadline && Link.Fits(kind, log[d].reply)
    ensures log[s] == Sent(log[r].reply) && log[o] == NativeOutput(log[r].reply) && log[k] == AckRead(log[r].reply)
  {
    var c, reply := log[r].command, log[r].reply;
    assert Caused(log[..r], log[r], kind, deadline);
    var at: nat :| Decision(c, reply, at) in log[..r];
    var mine := EarlierCause(log, r, Decision(c, reply, at));
    assert Caused(log[..mine], log[mine], kind, deadline);
    k := EarlierCause(log, r, AckRead(reply));
    s, o := AckChain(log, kind, deadline, k);
    d := SentChain(log, kind, deadline, s);
    CountedOnce(OfDecisions, log, d, mine);
  }

  /** The facts of the invariant that the reports rest on. */
  lemma {:induction false} RunFacts(run: seq<Step>, id: string)
    requires After(run).Some? && id in After(run).value.invokes
    ensures var v := After(run).value.invokes[id];
            && WellCaused(v.log, v.info.kind, v.deadline) && Count(OfDecisions, v.log) <= 1
            && forall c :: c in v.commands && v.commands[c] == Reported(Completed) ==>
                 exists reply :: CommandCompleted(c, reply) in v.log
  {
    RunKeepsInv(run);
    var l := View(After(run).value, id);
    assert DecisionOk(l) && CommandsOk(l);
    forall c | c in l.v.commands && l.v.commands[c] == Reported(Completed)
      ensures exists reply :: CommandCompleted(c, reply) in l.v.log
    {
      assert CommandOk(l, c);
    }
  }

  /** A command reported COMPLETED locked its own reply before the deadline; that reply was then
      written on the invoke's connection, the helper printed the native output for it, and only
      after that its ack was read. */
  lemma {:induction false} CompletedIsHonest(run: seq<Step>, id: string, c: nat)
      returns (reply: HookReply, d: nat, s: nat, o: nat, k: nat, r: nat)
    requires After(run).Some? && id in After(run).value.invokes
    requires var v := After(run).value.invokes[id];
             c in v.commands && v.commands[c] == Reported(Completed)
    ensures var v := After(run).value.invokes[id];
            && d < s < o < k < r < |v.log|
            && v.log[d].Decision? && v.log[d].command == c && v.log[d].reply == reply
            && v.log[d].at < v.deadline && c in v.asked && Link.Answers(v.info, v.asked[c], reply)
            && v.log[s] == Sent(reply)
            && v.log[o] == NativeOutput(reply)
            && v.log[k] == AckRead(reply)
            && v.log[r] == CommandCompleted(c, reply)
  {
    RunFacts(run, id);
    var v := After(run).value.invokes[id];
    reply :| CommandCompleted(c, reply) in v.log;
    r :| r < |v.log| && v.log[r] == CommandCompleted(c, reply);
    d, s, o, k := CompletedChain(v.log, v.info.kind, v.deadline, r);
    DecisionIsTheChoice(run, id, d);
  }

  /** Every decision accepted in any run is the answer of its own command: "allow" allows, "deny" denies, and
      a question is answered with the option named and the text given. */
  lemma {:induction false} DecisionIsTheChoice(run: seq<Step>, id: string, d: nat)
    requires After(run).Some? && id in After(run).value.invokes
    requires var log := After(run).value.invokes[id].log; d < |log| && log[d].Decision?
    ensures var v := After(run).value.invokes[id];
            v.log[d].command in v.asked && Link.Answers(v.info, v.asked[v.log[d].command], v.log[d].reply)
  {
    RunKeepsInv(run);
    assert ChoicesOk(View(After(run).value, id));
  }

  /** Once the handler has returned, a command that waits for its delivery is reported completed exactly if
      its reply's ack was read. */
  lemma {:induction false} CompletedExactlyWhen(run: seq<Step>, id: string, c: nat)
    requires After(run).Some? && id in After(run).value.invokes
    requires var v := After(run).value.invokes[id]; v.handler.Returned? && c in v.commands && v.commands[c].Awaiting?
    ensures var l := View(After(run).value, id); var reply := l.v.commands[c].reply;
            AckRead(reply) in l.v.log <==>
              Enabled(l, CommandReceive(c)) && Act(l, CommandReceive(c)).v.commands[c] == Reported(Completed)
  {
    PartsHold(run, id);
    var l := View(After(run).value, id);
    SlotIsReply(l, c);
    DeliveredExactly(l);
    WaitingForOutcome(l, c);
  }

  lemma {:induction false} WaitingForOutcome(l: Local, c: nat)
    requires l.v.handler.Returned? && c in l.v.commands && l.v.commands[c].Awaiting?
    requires l.v.slot == Some(l.v.commands[c].reply)
    requires AckRead(l.v.commands[c].reply) in l.v.log <==> l.v.outcome == Some(Delivered)
    ensures AckRead(l.v.commands[c].reply) in l.v.log <==>
              Enabled(l, CommandReceive(c)) && Act(l, CommandReceive(c)).v.commands[c] == Reported(Completed)
  {
  }

  lemma {:induction false} SlotIsReply(l: Local, c: nat)
    requires DecisionOk(l) && CommandsOk(l) && c in l.v.commands && l.v.commands[c].Awaiting?
    ensures l.v.slot == Some(l.v.commands[c].reply)
  {
    assert CommandOk(l, c);
    assert Decision(c, l.v.commands[c].reply, l.v.commands[c].at) in l.v.log;
  }

  lemma {:induction false} DeliveredExactly(l: Local)
    requires HandlerOk(l) && AckOk(l) && l.v.handler.Returned? && l.v.slot.Some?
    ensures AckRead(l.v.slot.value) in l.v.log <==> l.v.outcome == Some(Delivered)
  {
  }

  lemma {:induction false} PartsHold(run: seq<Step>, id: string)
    requires After(run).Some? && id in After(run).value.invokes
    ensures Inv(View(After(run).value, id))
  {
    RunKeepsInv(run);
  }

  lemma {:induction false} RecordOfRun(run: seq<Step>, id: string) returns (l: Local)
    requires After(run).Some? && id in After(run).value.invokes
    ensures l == View(After(run).value, id) && RecordOk(l)
  {
    PartsHold(run, id);
    l := View(After(run).value, id);
  }

  lemma {:induction false} RegisteredIsInvoke(run: seq<Step>, id: string)
    requires After(run).Some? && id in After(run).value.registry
    ensures id in After(run).value.invokes
  {
    RunKeepsInv(run);
  }

  /** The record says how the delivery ended. */
  lemma {:induction false} RecordTellsDelivery(run: seq<Step>, id: string)
    requires After(run).Some? && id in After(run).value.registry
    ensures var s := After(run).value; var state := s.registry[id].state;
            && id in s.invokes
            && (state in {ReturnedToRuntime, RuntimeProcessed} <==> s.invokes[id].outcome == Some(Delivered))
            && (s.invokes[id].outcome == Some(Unconfirmed) ==> state == HandledLocally)
            && (state == ReturnedToRuntime ==> Act(View(s, id), Process).record.value.state == RuntimeProcessed)
  {
    RegisteredIsInvoke(run, id);
    var l := RecordOfRun(run, id);
  }

  /** A cancel event of a waiting invoke wakes its handler, which tells the helper so. */
  lemma {:induction false} CancelWakesHandler(run: seq<Step>, id: string)
    requires After(run).Some? && id in After(run).value.invokes
    requires var l := View(After(run).value, id);
             l.record.Some? && l.record.value.state == Waiting && l.v.handler.Selecting?
    ensures var m := Act(View(After(run).value, id), CancelLock);
            Enabled(m, TakeClosedChannel) && Act(m, TakeClosedChannel).v.handler == Replying(HookReply.Cancelled)
  {
    var l := RecordOfRun(run, id);
  }

  // ---------------------------------------------------------------------------
  // Agreement
  // ---------------------------------------------------------------------------

  /** At most one decision per registration, made while waiting and before the deadline; the
      helper gets at most one reply, and once a decision was accepted that reply is the decision
      or `expired`; a helper told `expired` is never reported completed. */
  lemma {:induction false} Agreement(run: seq<Step>, id: string, i: nat, j: nat)
    requires After(run).Some? && id in After(run).value.invokes
    requires var log := After(run).value.invokes[id].log; i < |log| && j < |log|
    ensures var v := After(run).value.invokes[id];
            && (v.log[i].Decision? && v.log[j].Decision? ==> i == j)
            && (v.log[i].Sent? && v.log[j].Sent? ==> i == j)
            && (v.log[i].Decision? ==> v.log[i].at < v.deadline)
            && (v.log[i].Decision? && v.log[j].Sent? ==> v.log[j].reply in {v.log[i].reply, HookReply.Expired})
            && (v.log[i] == Sent(HookReply.Expired) ==> !v.log[j].CommandCompleted?)
  {
    PartsHold(run, id);
    var l := View(After(run).value, id);
    OnceEach(l, i, j);
    if l.v.log[i].Decision? && l.v.log[j].Sent? {
      HelperIsToldTheDecision(l, l.v.log[i], l.v.log[j]);
    }
    if l.v.log[j].CommandCompleted? {
      CompletedWasNotExpired(l, l.v.log[j]);
    }
  }

  lemma {:induction false} OnceEach(l: Local, i: nat, j: nat)
    requires DecisionOk(l) && ConnectionOk(l) && i < |l.v.log| && j < |l.v.log|
    ensures l.v.log[i].Decision? && l.v.log[j].Decision? ==> i == j
    ensures l.v.log[i].Sent? && l.v.log[j].Sent? ==> i == j
    ensures l.v.log[i].Decision? ==> l.v.log[i].at < l.v.deadline
  {
    if l.v.log[i].Decision? && l.v.log[j].Decision? {
      CountedOnce(OfDecisions, l.v.log, i, j);
    }
    if l.v.log[i].Sent? && l.v.log[j].Sent? {
      CountedOnce(OfSent, l.v.log, i, j);
    }
    assert Caused(l.v.log[..i], l.v.log[i], l.v.info.kind, l.v.deadline);
  }

  lemma {:induction false} HelperIsToldTheDecision(l: Local, decided: Event, sent: Event)
    requires HandlerOk(l) && ConnectionOk(l) && DecisionOk(l)
    requires decided in l.v.log && decided.Decision? && sent in l.v.log && sent.Sent?
    ensures sent.reply in {decided.reply, HookReply.Expired}
  {
    assert l.v.toHelper == [sent.reply];
    assert l.v.slot == Some(decided.reply);
  }

  lemma {:induction false} CompletedWasNotExpired(l: Local, completed: Event)
    requires HandlerOk(l) && ConnectionOk(l) && DecisionOk(l)
    requires completed in l.v.log && completed.CommandCompleted?
    ensures l.v.toHelper != [HookReply.Expired] && Sent(HookReply.Expired) !in l.v.log
  {
    assert l.v.outcome == Some(Delivered);
  }

  /** `resolve` answers Ok exactly when the record waits, the deadline lies ahead and the handler
      still listens. */
  lemma {:induction false} DecidesExactlyWhen(run: seq<Step>, id: string)
    requires After(run).Some? && id in After(run).value.invokes
    ensures var l := View(After(run).value, id);
            Resolves(l) <==>
            && l.record.Some? && l.record.value.state == Waiting && l.now < l.v.deadline
            && (l.v.handler.Registered? || l.v.handler.Selecting?)
  {
    RunKeepsInv(run);
    var l := View(After(run).value, id);
    assert RecordOk(l) && HandlerOk(l);
  }

  // ---------------------------------------------------------------------------
  // No leak
  // ---------------------------------------------------------------------------

  /** Every record that can still be decided or delivered has a live handler: once the handler has
      returned, by whatever branch and race, its record is terminal or already purged. */
  lemma {:induction false} NoLeak(run: seq<Step>, id: string)
    requires After(run).Some? && id in After(run).value.registry
    ensures var s := After(run).value;
            id in s.invokes && (!s.registry[id].state.IsTerminal() ==> !s.invokes[id].handler.Returned?)
  {
    RunKeepsInv(run);
    var s := After(run).value;
    assert HandlerOk(View(s, id));
  }

  /** A registration at time t under a new id adds a waiting record with deadline t + wait, drops exactly the
      ended records whose deadline is at or before t, and keeps every other as it is. */
  lemma {:induction false} RegistrationPurges(s: System, id: string, info: InvokeInfo, wait: nat, other: string)
    requires StepEnabled(s, Register(id, info, wait)) && id !in s.registry && other != id
    ensures var next := Next(s, Register(id, info, wait)).registry;
            && id in next && next[id] == NewRecord(info, s.now, wait) && next[id].state == Waiting && next[id].deadline == s.now + wait
            && (other in next <==>
                  other in s.registry && !(s.registry[other].state.IsTerminal() && s.registry[other].deadline <= s.now))
            && (other in next ==> next[other] == s.registry[other])
  {
  }

  // ---------------------------------------------------------------------------
  // Cards
  // ---------------------------------------------------------------------------

  /** When a handler has returned, its card was added once and the handler removed it exactly if
      the closing lock saw a state it answers for. */
  lemma {:induction false} CardBalance(run: seq<Step>, id: string)
    requires After(run).Some? && id in After(run).value.invokes
    requires After(run).value.invokes[id].handler.Returned?
    ensures var v := After(run).value.invokes[id];
            && v.closing.Some?
            && Count(OfAdded, v.log) == One(Link.PublishesCard(v.info))
            && Count(OfRemoved, v.log) == One(Link.PublishesCard(v.info) && MustRemove(v.closing.value))
  {
    RunKeepsInv(run);
    var l := View(After(run).value, id);
    assert HandlerOk(l) && CardsOk(l);
  }

  /** Card conservation. Without a cancel event and without a purge of the record, the decision
      and time-out branches remove the card exactly once; the connection branch does so exactly
      when the record still waited or was decided at settlement. */
  lemma {:induction false} CardConservation(run: seq<Step>, id: string)
    requires After(run).Some? && id in After(run).value.invokes
    requires After(run).value.invokes[id].handler.Returned?
    requires Link.PublishesCard(After(run).value.invokes[id].info)
    requires CancelSeen !in After(run).value.invokes[id].log
    requires id in After(run).value.registry
    ensures var v := After(run).value.invokes[id];
            && v.closing.Some?
            && Count(OfCancelRemoved, v.log) == 0
            && (v.closing.value.branch in {ByDecision, ByTimeout} ==> Count(OfRemoved, v.log) == 1)
            && (v.closing.value.branch == ByLoss ==>
                  Count(OfRemoved, v.log) == One(v.closing.value.seen in {Some(Waiting), Some(Decided)}))
  {
    RunKeepsInv(run);
    var l := View(After(run).value, id);
    assert HandlerOk(l) && CardsOk(l) && ClosingOk(l);
  }

  /** A removal of the card, by the handler or by a cancel event, was published after it was added. */
  predicate TakenAway(log: seq<Event>) {
    exists p, q :: 0 <= p < q < |log| && log[p] == CardAdded && (log[q].CardRemoved? || log[q].CardRemovedByCancel?)
  }

  predicate ShownCancel(log: seq<Event>) {
    exists q :: 0 <= q < |log| && log[q] == CardRemovedByCancel(true)
  }

  predicate HandlerRemoval(log: seq<Event>) {
    exists q :: 0 <= q < |log| && log[q] == CardRemoved
  }

  lemma {:induction false} TakenAwayExactly(log: seq<Event>, kind: InvokeKind, deadline: nat)
    requires WellCaused(log, kind, deadline)
    ensures TakenAway(log) <==> HandlerRemoval(log) || ShownCancel(log)
  {
    forall q | 0 <= q < |log| && (log[q] == CardRemoved || log[q] == CardRemovedByCancel(true))
      ensures TakenAway(log)
    {
      assert Caused(log[..q], log[q], kind, deadline);
      var p :| 0 <= p < q && log[..q][p] == CardAdded;
      assert log[p] == CardAdded;
    }
    forall p, q | 0 <= p < q < |log| && log[p] == CardAdded && log[q].CardRemovedByCancel?
      ensures log[q].shown
    {
      assert Caused(log[..q], log[q], kind, deadline);
      assert log[..q][p] == CardAdded;
    }
  }

  lemma {:induction false} RemovalCounted(log: seq<Event>)
    ensures Count(OfRemoved, log) > 0 <==> HandlerRemoval(log)
  {
    CountedIsThere(OfRemoved, log);
    if HandlerRemoval(log) {
      var q :| 0 <= q < |log| && log[q] == CardRemoved;
      assert Counts(OfRemoved, log[q]);
    }
  }

  /** In every run, cancels, purges, late clicks and lost helpers included: the card of an invoke whose
      handler has returned was added and, but for cancel events still to be published, stays for good if and
      only if the closing section saw a state the handler does not answer for and every cancel event that
      found the record was published while the handler had not yet published the card. */
  lemma {:induction false} CardStaysExactlyWhen(run: seq<Step>, id: string)
    requires After(run).Some? && id in After(run).value.invokes
    requires After(run).value.invokes[id].handler.Returned?
    requires Link.PublishesCard(After(run).value.invokes[id].info)
    ensures var v := After(run).value.invokes[id];
            && v.closing.Some? && CardAdded in v.log
            && (!TakenAway(v.log) <==>
                  !MustRemove(v.closing.value) && forall e :: e in v.log && e.CardRemovedByCancel? ==> !e.shown)
  {
    RunKeepsInv(run);
    CardBalance(run, id);
    var l := View(After(run).value, id);
    assert CardsOk(l) && DecisionOk(l);
    AddedIsLogged(l);
    TakenAwayExactly(l.v.log, l.v.info.kind, l.v.deadline);
    RemovalCounted(l.v.log);
    ShownIsLogged(l.v.log);
  }

  lemma {:induction false} ShownIsLogged(log: seq<Event>)
    ensures ShownCancel(log) <==> exists e :: e in log && e.CardRemovedByCancel? && e.shown
  {
    if ShownCancel(log) {
      var q :| 0 <= q < |log| && log[q] == CardRemovedByCancel(true);
      assert log[q] in log;
    }
  }

  // ---------------------------------------------------------------------------
  // Three runs that leave a card behind
  // ---------------------------------------------------------------------------

  lemma {:induction false} Extend(run: seq<Step>, step: Step)
    requires After(run).Some? && StepEnabled(After(run).value, step)
    ensures After(run + [step]) == Some(Next(After(run).value, step))
  {
    assert (run + [step])[..|run + [step]| - 1] == run;
  }

  /** One more action on one invoke of a run. */
  lemma {:induction false} Take(run: seq<Step>, id: string, a: Action) returns (longer: seq<Step>)
    requires After(run).Some? && id in After(run).value.invokes && Enabled(View(After(run).value, id), a)
    ensures After(longer).Some? && id in After(longer).value.invokes
    ensures View(After(longer).value, id) == Act(View(After(run).value, id), a)
    ensures After(longer).value.invokes.Keys == After(run).value.invokes.Keys
  {
    Extend(run, At(id, a));
    longer := run + [At(id, a)];
    ActViews(After(run).value, id, a, id);
  }

  const APPROVAL := InvokeInfo(PermissionRequest, Some("s"), Some("Bash"), None, None, Some("ls"))

  const ALLOW := Link.AnswerApproval("i", "allow")

  /** The run that registers invoke "i" and nothing else. */
  lemma {:induction false} Begun() returns (run: seq<Step>)
    ensures After(run).Some? && "i" in After(run).value.invokes
    ensures View(After(run).value, "i") == Local(Some(NewRecord(APPROVAL, 0, 500)), NewInvoke("i", APPROVAL, 500), 0)
    ensures After(run).value.invokes.Keys == {"i"}
  {
    run := [Register("i", APPROVAL, 500)];
    Extend([], run[0]);
    assert [] + run == run;
  }

  /** The run in which invoke "i" is published and command 0 is routed to it. */
  lemma {:induction false} Routed() returns (run: seq<Step>)
    ensures After(run).Some? && "i" in After(run).value.invokes
    ensures After(run).value.invokes.Keys == {"i"}
    ensures var l := View(After(run).value, "i");
            && l.record == Some(NewRecord(APPROVAL, 0, 500)) && l.now == 0
            && l.v == NewInvoke("i", APPROVAL, 500).(
                        handler := Selecting, asked := map[0 := ALLOW], commands := map[0 := Matched(ALLOW)], log := [CardAdded])
  {
    run := Begun();
    run := Take(run, "i", PublishCard);
    run := Take(run, "i", CommandMatch(0, "device", Some(Link.SessionKey("device", Link.ZcodeDesktop, "s")), ALLOW));
  }

  /** The run in which command 0 is about to decide the published invoke "i". */
  lemma {:induction false} AboutToDecide() returns (run: seq<Step>)
    ensures After(run).Some? && "i" in After(run).value.invokes
    ensures After(run).value.invokes.Keys == {"i"}
    ensures var l := View(After(run).value, "i");
            && l.record == Some(NewRecord(APPROVAL, 0, 500)) && l.now == 0
            && l.v == NewInvoke("i", APPROVAL, 500).(
                        handler := Selecting, asked := map[0 := ALLOW], commands := map[0 := Composed(Allowed)], log := [CardAdded])
  {
    run := Routed();
    run := Take(run, "i", CommandLabel(0));
    run := Take(run, "i", CommandCompose(0));
  }

  /** The helper has vanished, and the handler's monitor knows. */
  lemma {:induction false} HelperLost() returns (run: seq<Step>)
    ensures After(run).Some? && "i" in After(run).value.invokes
    ensures var l := View(After(run).value, "i");
            && l.record == Some(NewRecord(APPROVAL, 0, 500)) && l.now == 0
            && l.v == NewInvoke("i", APPROVAL, 500).(
                        handler := Selecting, helper := Gone, monitor := Ready(Closed),
                        asked := map[0 := ALLOW], commands := map[0 := Composed(Allowed)], log := [CardAdded])
  {
    run := AboutToDecide();
    run := Take(run, "i", HelperCrash);
    run := Take(run, "i", MonitorClosed);
  }

  /** The handler has dropped the reply channel, and a click came too late. */
  lemma {:induction false} ClickedIntoClosedChannel() returns (run: seq<Step>)
    ensures After(run).Some? && "i" in After(run).value.invokes
    ensures var l := View(After(run).value, "i");
            && l.record == Some(NewRecord(APPROVAL, 0, 500).(state := HandledLocally, responder := false)) && l.now == 0
            && l.v == NewInvoke("i", APPROVAL, 500).(
                        handler := Dropped(false), receiverOpen := false, helper := Gone, monitor := Taken,
                        asked := map[0 := ALLOW], commands := map[0 := Reported(Refused(Link.ApprovalExpired))], log := [CardAdded])
  {
    run := HelperLost();
    run := Take(run, "i", TakeConnEvent);
    run := Take(run, "i", CommandResolve(0));
  }

  /** The helper vanishes and, between the select and the settlement, a click arrives: it finds
      the reply channel closed and ends the record, and the settlement then removes no card. */
  lemma {:induction false} LostHelperLeavesCard() returns (run: seq<Step>)
    ensures After(run).Some? && "i" in After(run).value.invokes && View(After(run).value, "i").record.Some?
    ensures var v := After(run).value.invokes["i"];
            && v.handler.Returned? && v.log == [CardAdded]
  {
    run := ClickedIntoClosedChannel();
    run := Take(run, "i", SettleFirst);
    run := Take(run, "i", SettleRace);
    run := Take(run, "i", PublishRemoval);
    run := Take(run, "i", WriteExpired(false));
  }

  /** A cancel event has ended the record and removed a card that is not yet published. */
  lemma {:induction false} CancelledUnpublished() returns (run: seq<Step>)
    ensures After(run).Some? && "i" in After(run).value.invokes
    ensures var l := View(After(run).value, "i");
            && l.record == Some(NewRecord(APPROVAL, 0, 500).(state := HandledLocally, responder := false)) && l.now == 0
            && l.v == NewInvoke("i", APPROVAL, 500).(log := [CancelSeen, CardRemovedByCancel(false)])
  {
    run := Begun();
    run := Take(run, "i", CancelLock);
    run := Take(run, "i", CancelPublish);
  }

  /** Then the card is published. */
  lemma {:induction false} CancelledBeforePublication() returns (run: seq<Step>)
    ensures After(run).Some? && "i" in After(run).value.invokes
    ensures var l := View(After(run).value, "i");
            && l.record == Some(NewRecord(APPROVAL, 0, 500).(state := HandledLocally, responder := false)) && l.now == 0
            && l.v == NewInvoke("i", APPROVAL, 500).(
                        handler := Selecting, log := [CancelSeen, CardRemovedByCancel(false), CardAdded])
  {
    run := CancelledUnpublished();
    run := Take(run, "i", PublishCard);
  }

  /** A cancel event that overtakes the publication removes a card that is only then added; the
      handler, told `cancelled`, finds its record ended and removes nothing. */
  lemma {:induction false} EarlyCancelLeavesCard() returns (run: seq<Step>)
    ensures After(run).Some? && "i" in After(run).value.invokes && View(After(run).value, "i").record.Some?
    ensures var v := After(run).value.invokes["i"];
            && v.handler.Returned? && v.cancels == 0
            && v.log == [CancelSeen, CardRemovedByCancel(false), CardAdded]
  {
    run := CancelledBeforePublication();
    run := Take(run, "i", TakeClosedChannel);
    run := Take(run, "i", WriteReply(false, false));
    run := Take(run, "i", CompleteDelivery);
    run := Take(run, "i", PublishOutcome);
  }

  /** Time passes for every invoke alike. */
  lemma {:induction false} Wait(run: seq<Step>, id: string, elapsed: nat) returns (longer: seq<Step>)
    requires After(run).Some? && id in After(run).value.invokes
    ensures After(longer).Some? && After(longer).value.invokes == After(run).value.invokes
    ensures var l := View(After(run).value, id); View(After(longer).value, id) == l.(now := l.now + elapsed)
  {
    Extend(run, Tick(elapsed));
    longer := run + [Tick(elapsed)];
  }

  /** A registration under a new id drops the ended record of another invoke past its deadline. */
  lemma {:induction false} PurgeBy(run: seq<Step>, id: string, other: string, info: InvokeInfo, wait: nat) returns (longer: seq<Step>)
    requires After(run).Some? && id in After(run).value.invokes && other !in After(run).value.invokes
    requires var l := View(After(run).value, id); l.record.Some? && l.record.value.state.IsTerminal() && l.record.value.deadline <= l.now
    ensures After(longer).Some? && id in After(longer).value.invokes
    ensures View(After(longer).value, id) == View(After(run).value, id).(record := None)
  {
    RunKeepsInv(run);
    Extend(run, Register(other, info, wait));
    longer := run + [Register(other, info, wait)];
  }

  /** A click after the deadline has expired the record, and another registration has dropped it. */
  lemma {:induction false} ExpiredAndPurged() returns (run: seq<Step>)
    ensures After(run).Some? && "i" in After(run).value.invokes
    ensures var l := View(After(run).value, "i");
            && l.record.None? && l.now == 500
            && l.v == NewInvoke("i", APPROVAL, 500).(
                        handler := Selecting, asked := map[0 := ALLOW], commands := map[0 := Reported(Refused(Link.ApprovalExpired))], log := [CardAdded])
  {
    run := AboutToDecide();
    run := Wait(run, "i", 500);
    run := Take(run, "i", CommandResolve(0));
    run := PurgeBy(run, "i", "j", APPROVAL, 500);
  }

  /** The time-out branch then finds no record. */
  lemma {:induction false} TimedOutAndPurged() returns (run: seq<Step>)
    ensures After(run).Some? && "i" in After(run).value.invokes
    ensures var l := View(After(run).value, "i");
            && l.record.None?
            && l.v == NewInvoke("i", APPROVAL, 500).(
                        handler := Removing(false), receiverOpen := false, closing := Some(Closing(ByTimeout, None)),
                        asked := map[0 := ALLOW], commands := map[0 := Reported(Refused(Link.ApprovalExpired))], log := [CardAdded])
  {
    run := ExpiredAndPurged();
    run := Take(run, "i", TakeTimeout);
    run := Take(run, "i", SettleFirst);
    run := Take(run, "i", SettleRace);
  }

  /** It removes no card: no cancel and no lost helper is needed to leave one behind. */
  lemma {:induction false} PurgedRecordLeavesCard() returns (run: seq<Step>)
    ensures After(run).Some? && "i" in After(run).value.invokes && View(After(run).value, "i").record.None?
    ensures var v := After(run).value.invokes["i"];
            && v.handler.Returned? && v.closing == Some(Closing(ByTimeout, None))
            && v.log == [CardAdded, Sent(HookReply.Expired)]
  {
    run := TimedOutAndPurged();
    run := Take(run, "i", PublishRemoval);
    run := Take(run, "i", WriteExpired(true));
  }

  // ---------------------------------------------------------------------------
  // A run in which everything goes well
  // ---------------------------------------------------------------------------

  /** The record of invoke "i" after its decision. */
  const DECIDED := NewRecord(APPROVAL, 0, 500).(state := Decided, responder := false)

  /** Invoke "i" after command 0 was accepted and waits for the delivery. */
  const WAITING_INVOKE := NewInvoke("i", APPROVAL, 500).(
    handler := Selecting, slot := Some(Allowed), asked := map[0 := ALLOW], commands := map[0 := Awaiting(Allowed, 0)],
    log := [CardAdded, Decision(0, Allowed, 0)])

  lemma {:induction false} Accepted() returns (run: seq<Step>)
    ensures After(run).Some? && "i" in After(run).value.invokes
    ensures View(After(run).value, "i") == Local(Some(DECIDED.(deliveryRx := false)), WAITING_INVOKE, 0)
  {
    run := AboutToDecide();
    run := Take(run, "i", CommandResolve(0));
    run := Take(run, "i", CommandTake(0));
  }

  /** ... and after its reply was written. */
  const WRITTEN_INVOKE := WAITING_INVOKE.(
    handler := AwaitingAck(Allowed), receiverOpen := false, toHelper := [Allowed],
    log := [CardAdded, Decision(0, Allowed, 0), Sent(Allowed)])

  lemma {:induction false} Written() returns (run: seq<Step>)
    ensures After(run).Some? && "i" in After(run).value.invokes
    ensures View(After(run).value, "i") == Local(Some(DECIDED.(deliveryRx := false)), WRITTEN_INVOKE, 0)
  {
    run := Accepted();
    run := Take(run, "i", TakeDecision);
    run := Take(run, "i", WriteReply(true, true));
  }

  /** ... and after the helper has printed it. */
  const PRINTED_INVOKE := WRITTEN_INVOKE.(
    helper := Printed(Allowed), log := [CardAdded, Decision(0, Allowed, 0), Sent(Allowed), NativeOutput(Allowed)])

  lemma {:induction false} OutputDone() returns (run: seq<Step>)
    ensures After(run).Some? && "i" in After(run).value.invokes
    ensures View(After(run).value, "i") == Local(Some(DECIDED.(deliveryRx := false)), PRINTED_INVOKE, 0)
  {
    run := Written();
    run := Take(run, "i", HelperRead);
    run := Take(run, "i", HelperPrint);
  }

  /** ... and after its acknowledgement has arrived. */
  const ACKED_INVOKE := PRINTED_INVOKE.(
    helper := Acked(Allowed), toBridge := [AckLine("i")], monitor := Ready(Line(AckLine("i"))),
    log := [CardAdded, Decision(0, Allowed, 0), Sent(Allowed), NativeOutput(Allowed), AckSent(Allowed)])

  lemma {:induction false} Acknowledged() returns (run: seq<Step>)
    ensures After(run).Some? && "i" in After(run).value.invokes
    ensures View(After(run).value, "i") == Local(Some(DECIDED.(deliveryRx := false)), ACKED_INVOKE, 0)
  {
    run := OutputDone();
    run := Take(run, "i", HelperAck);
    run := Take(run, "i", MonitorLine);
  }

  /** ... and after the handler has read it and completed the delivery. */
  const COMPLETED_INVOKE := ACKED_INVOKE.(
    handler := Reporting(true, true), monitor := Taken, outcome := Some(Delivered), closing := Some(Closing(ByDecision, Some(Decided))),
    log := [CardAdded, Decision(0, Allowed, 0), Sent(Allowed), NativeOutput(Allowed), AckSent(Allowed), AckRead(Allowed)])

  const RETURNED_RECORD := DECIDED.(state := ReturnedToRuntime, deliveryTx := false, deliveryRx := false)

  lemma {:induction false} DeliveryCompleted() returns (run: seq<Step>)
    ensures After(run).Some? && "i" in After(run).value.invokes
    ensures View(After(run).value, "i") == Local(Some(RETURNED_RECORD), COMPLETED_INVOKE, 0)
  {
    run := Acknowledged();
    run := Take(run, "i", JudgeAck);
    run := Take(run, "i", CompleteDelivery);
  }

  lemma {:induction false} CardTakenOff() returns (run: seq<Step>)
    ensures After(run).Some? && "i" in After(run).value.invokes
    ensures View(After(run).value, "i")
         == Local(Some(RETURNED_RECORD), COMPLETED_INVOKE.(handler := Returned, log := COMPLETED_INVOKE.log + [CardRemoved]), 0)
  {
    run := DeliveryCompleted();
    run := Take(run, "i", PublishOutcome);
  }

  lemma {:induction false} ReceiptSent() returns (run: seq<Step>)
    ensures After(run).Some? && "i" in After(run).value.invokes
    ensures var l := View(After(run).value, "i");
            && l.record == Some(RETURNED_RECORD)
            && l.v.handler.Returned? && l.v.commands == map[0 := Reported(Completed)]
            && l.v.log == COMPLETED_INVOKE.log + [CardRemoved] + [CommandCompleted(0, Allowed)]
  {
    run := CardTakenOff();
    run := Take(run, "i", CommandReceive(0));
  }

  /** One click is decided, printed, acknowledged and reported completed; its card is gone, and the record
      ends as processed by the runtime. */
  lemma {:induction false} ClickIsCompleted() returns (run: seq<Step>)
    ensures After(run).Some? && "i" in After(run).value.invokes
    ensures var l := View(After(run).value, "i");
            && l.record == Some(RETURNED_RECORD.(state := RuntimeProcessed))
            && l.v.handler.Returned? && l.v.commands == map[0 := Reported(Completed)]
            && l.v.log == [CardAdded, Decision(0, Allowed, 0), Sent(Allowed), NativeOutput(Allowed), AckSent(Allowed),
                           AckRead(Allowed), CardRemoved, CommandCompleted(0, Allowed)]
  {
    run := ReceiptSent();
    run := Take(run, "i", Process);
  }
}
