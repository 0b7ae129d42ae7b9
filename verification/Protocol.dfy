/** The remote-decision protocol as a transition system: connection handlers
    (apps/bridge/src/zcode/server.rs), the registry (pending.rs), helper processes (helper.rs,
    mcp.rs) and the browser-command face (apps/bridge/src/runtime/mod.rs `handle_command`).

    One action is one registry critical section, one channel operation, one socket line or one
    helper output; actions of all parties interleave freely. Invokes meet only in the registry
    map, whose `register` purges other records, and in the clock. So every action but these two
    is written on one invoke: its record, if the registry still has it, and its `Invoke`. */
module Protocol {
  import opened Wrappers
  import opened Contract
  import opened Pending
  import Link

  // ---------------------------------------------------------------------------
  // State
  // ---------------------------------------------------------------------------

  /** What the connection monitor hands over, once. */
  datatype ConnEvent = Line(line: HelperLine) | Closed

  datatype Monitor = Reading | Ready(event: ConnEvent) | Taken

  /** Where `handle_pending_invoke` stands. */
  datatype Handler =
    | Registered                              // registered, card not yet published
    | Selecting                               // in the select
    | Replying(reply: HookReply)              // decision branch won
    | AwaitingAck(reply: HookReply)           // reply written
    | Judged(reply: HookReply, delivered: bool)
    | Reporting(delivered: bool, moved: bool) // complete_delivery done, outcome not yet published
    | Dropped(timedOut: bool)                 // time-out or connection branch won; reply channel dropped
    | Unsettled(timedOut: bool)               // first settlement answered false
    | Removing(remove: bool)                  // settled; removal not yet published
    | Refusing                                // `expired` still to be written
    | Returned

  /** The helper process (hook or MCP) at the other end of the connection. */
  datatype Helper =
    | Listening
    | Holding(reply: HookReply)  // reply read
    | Printed(reply: HookReply)  // native output done (or none needed)
    | Acked(reply: HookReply)
    | Gone

  datatype Receipt = Completed | OutcomeUnknown | Refused(error: Link.StableError)

  /** A browser command routed to this invoke. */
  datatype Command =
    | Matched(payload: Link.Payload)
    | Labelled(payload: Link.Payload, chosen: Option<string>)
    | Composed(reply: HookReply)
    | Locked(reply: HookReply, at: nat)
    | Awaiting(reply: HookReply, at: nat)
    | Reported(receipt: Receipt)

  /** Which branch closed the invoke, and the record state the closing lock saw. */
  datatype Branch = ByDecision | ByTimeout | ByLoss
  datatype Closing = Closing(branch: Branch, seen: Option<PendingState>)

  datatype Event =
    | CardAdded
    | CardRemoved
    | CancelSeen
    | CardRemovedByCancel(shown: bool)                  // whether the card had been published
    | Decision(command: nat, reply: HookReply, at: nat) // `resolve` returned Ok
    | Sent(reply: HookReply)                            // reply line on the invoke's connection
    | NativeOutput(reply: HookReply)
    | AckSent(reply: HookReply)
    | AckRead(reply: HookReply)
    | CommandCompleted(command: nat, reply: HookReply)

  datatype Invoke = Invoke(
    id: string,
    info: InvokeInfo,
    deadline: nat,
    handler: Handler,
    receiverOpen: bool,                // the handler still holds the reply receiver
    slot: Option<HookReply>,           // what `resolve` put into the reply channel
    outcome: Option<DeliveryOutcome>,  // what went into the delivery channel
    helper: Helper,
    toHelper: seq<HookReply>,
    toBridge: seq<HelperLine>,
    monitor: Monitor,
    commands: map<nat, Command>,
    asked: map<nat, Link.Payload>,     // what each of them carries
    cancels: nat,                      // cancel connections between lock and publication
    closing: Option<Closing>,
    log: seq<Event>)

  /** One invoke, as its own actions see the system. */
  datatype Local = Local(record: Option<PendingRecord>, v: Invoke, now: nat)

  // ---------------------------------------------------------------------------
  // Actions
  // ---------------------------------------------------------------------------

  datatype Action =
    // handler
    | PublishCard
    | TakeDecision
    | TakeClosedChannel
    | TakeConnEvent
    | TakeTimeout
    | WriteReply(ok: bool, reached: bool)
    | JudgeAck
    | AckTimeout
    | CompleteDelivery
    | PublishOutcome
    | SettleFirst
    | SettleRace
    | PublishRemoval
    | WriteExpired(reached: bool)
    // connection monitor
    | MonitorLine
    | MonitorClosed
    // helper
    | HelperRead
    | HelperPrint
    | HelperAck
    | HelperCrash
    | HelperStray(line: HelperLine)
    // command face
    | CommandMatch(command: nat, device: string, key: Option<Link.SessionKey>, payload: Link.Payload)
    | CommandLabel(command: nat)
    | CommandCompose(command: nat)
    | CommandResolve(command: nat)
    | CommandTake(command: nat)
    | CommandReceive(command: nat)
    | CommandGiveUp(command: nat)
    // cancel connections
    | CancelLock
    | CancelPublish
    // PostToolUse observation
    | Process

  /** The hook helper prints allow and deny only; the MCP helper answers its host in any case. */
  predicate NeedsOutput(kind: InvokeKind, reply: HookReply) {
    kind == AskUser || reply.Allowed? || reply.Denied?
  }

  predicate SenderExists(record: Option<PendingRecord>) {
    record.Some? && record.value.responder
  }

  function SeenState(record: Option<PendingRecord>): Option<PendingState> {
    if record.Some? then Some(record.value.state) else None
  }

  predicate Enabled(l: Local, a: Action) {
    var v := l.v;
    match a
    case PublishCard => v.handler.Registered?
    case TakeDecision => v.handler.Selecting? && v.slot.Some?
    case TakeClosedChannel => v.handler.Selecting? && v.slot.None? && !SenderExists(l.record)
    case TakeConnEvent => v.handler.Selecting? && v.monitor.Ready?
    case TakeTimeout => v.handler.Selecting? && l.now >= v.deadline
    case WriteReply(ok, reached) => v.handler.Replying? && (ok ==> reached)
    case JudgeAck => v.handler.AwaitingAck? && v.monitor.Ready?
    case AckTimeout => v.handler.AwaitingAck?
    case CompleteDelivery => v.handler.Judged?
    case PublishOutcome => v.handler.Reporting?
    case SettleFirst => v.handler.Dropped?
    case SettleRace => v.handler.Unsettled?
    case PublishRemoval => v.handler.Removing?
    case WriteExpired(_) => v.handler.Refusing?
    case MonitorLine => v.monitor.Reading? && v.toBridge != []
    case MonitorClosed => v.monitor.Reading?
    case HelperRead => v.helper.Listening? && v.toHelper != []
    case HelperPrint => v.helper.Holding?
    case HelperAck => v.helper.Printed?
    case HelperCrash => true
    case HelperStray(line) => v.helper != Gone && line != AckLine(v.id)
    case CommandMatch(c, _, _, payload) => c !in v.commands && Link.TargetOf(payload) == Some(v.id)
    case CommandLabel(c) => c in v.commands && v.commands[c].Matched?
    case CommandCompose(c) => c in v.commands && v.commands[c].Labelled?
    case CommandResolve(c) => c in v.commands && v.commands[c].Composed?
    case CommandTake(c) => c in v.commands && v.commands[c].Locked?
    case CommandReceive(c) => c in v.commands && v.commands[c].Awaiting? && v.outcome.Some?
    case CommandGiveUp(c) => c in v.commands && v.commands[c].Awaiting?
    case CancelLock => true
    case CancelPublish => v.cancels > 0
    case Process => true
  }

  /** What an action writes to the invoke's log: at most one event. */
  function Emits(l: Local, a: Action): seq<Event>
    requires Enabled(l, a)
  {
    var v := l.v;
    match a
    case PublishCard => if Link.PublishesCard(v.info) then [CardAdded] else []
    case WriteReply(_, reached) => if reached then [Sent(v.handler.reply)] else []
    case JudgeAck => if AckArrived(v) then [AckRead(v.handler.reply)] else []
    case PublishOutcome => if v.handler.moved && Link.PublishesCard(v.info) then [CardRemoved] else []
    case PublishRemoval => if v.handler.remove && Link.PublishesCard(v.info) then [CardRemoved] else []
    case WriteExpired(reached) => if reached then [Sent(HookReply.Expired)] else []
    case HelperPrint => if NeedsOutput(v.info.kind, v.helper.reply) then [NativeOutput(v.helper.reply)] else []
    case HelperAck => [AckSent(v.helper.reply)]
    case CommandResolve(c) => if Resolves(l) then [Decision(c, v.commands[c].reply, l.now)] else []
    case CommandReceive(c) =>
      if v.outcome == Some(Delivered) then [CommandCompleted(c, v.commands[c].reply)] else []
    case CancelLock => [CancelSeen]
    case CancelPublish =>
      if l.record.Some? then [CardRemovedByCancel(Link.PublishesCard(v.info) && !v.handler.Registered?)] else []
    case _ => []
  }

  predicate AckArrived(v: Invoke)
    requires v.monitor.Ready?
  {
    v.monitor.event.Line? && IsDeliveryAck(v.monitor.event.line, v.id)
  }

  predicate Resolves(l: Local) {
    l.record.Some? && ResolveRecord(l.record.value, l.now, l.v.receiverOpen).result.Ok?
  }

  function Act(l: Local, a: Action): Local
    requires Enabled(l, a)
  {
    Local(if l.record.Some? then Some(RecordAfter(l.record.value, l, a)) else None,
          InvokeAfter(l, a).(log := l.v.log + Emits(l, a)),
          l.now)
  }

  /** The registry's part of an action, on the invoke's record. */
  function RecordAfter(r: PendingRecord, l: Local, a: Action): PendingRecord
    requires Enabled(l, a)
  {
    match a
    case CompleteDelivery => CompleteRecord(r, if l.v.handler.delivered then Delivered else Unconfirmed)
    case SettleFirst => if l.v.handler.timedOut then ExpireRecord(r) else CancelRecord(r)
    case SettleRace => FinalizeRecord(r)
    case CommandResolve(_) => ResolveRecord(r, l.now, l.v.receiverOpen).record
    case CommandTake(_) => r.(deliveryRx := false)
    case CancelLock => CancelRecord(r)
    case Process => ProcessRecord(r)
    case _ => r
  }

  /** Everything else an action changes but the log. */
  function InvokeAfter(l: Local, a: Action): Invoke
    requires Enabled(l, a)
  {
    var v := l.v;
    match a
    // ----- handler: up to the select -----
    case PublishCard => v.(handler := Selecting)
    case TakeDecision => v.(handler := Replying(v.slot.value), receiverOpen := false)
    case TakeClosedChannel => v.(handler := Replying(HookReply.Cancelled), receiverOpen := false)
    case TakeConnEvent => v.(handler := Dropped(false), receiverOpen := false, monitor := Taken)
    case TakeTimeout => v.(handler := Dropped(true), receiverOpen := false)
    // ----- handler: decision branch -----
    case WriteReply(ok, reached) =>
      var r := v.handler.reply;
      v.(handler := if ok then AwaitingAck(r) else Judged(r, false),
         toHelper := if reached then v.toHelper + [r] else v.toHelper)
    case JudgeAck => v.(handler := Judged(v.handler.reply, AckArrived(v)), monitor := Taken)
    case AckTimeout => v.(handler := Judged(v.handler.reply, false))
    case CompleteDelivery =>
      var moved := SeenState(l.record) == Some(Decided);
      var outcome := if v.handler.delivered then Delivered else Unconfirmed;
      v.(handler := Reporting(v.handler.delivered, moved),
         outcome := if moved && l.record.value.deliveryTx then Some(outcome) else v.outcome,
         closing := Some(Closing(ByDecision, SeenState(l.record))))
    case PublishOutcome => v.(handler := Returned)
    // ----- handler: time-out and connection branches -----
    case SettleFirst =>
      var timedOut := v.handler.timedOut;
      var seen := SeenState(l.record);
      var settled := seen == Some(Waiting) || (timedOut && seen == Some(PendingState.Expired));
      v.(handler := if settled then Removing(true) else Unsettled(timedOut),
         closing := Some(Closing(if timedOut then ByTimeout else ByLoss, seen)))
    case SettleRace => v.(handler := Removing(SeenState(l.record) == Some(Decided)))
    case PublishRemoval => v.(handler := Refusing)
    case WriteExpired(reached) =>
      v.(handler := Returned, toHelper := if reached then v.toHelper + [HookReply.Expired] else v.toHelper)
    // ----- connection monitor -----
    case MonitorLine => v.(monitor := Ready(Line(v.toBridge[0])))
    case MonitorClosed => v.(monitor := Ready(Closed))
    // ----- helper -----
    case HelperRead => v.(helper := Holding(v.toHelper[0]))
    case HelperPrint => v.(helper := Printed(v.helper.reply))
    case HelperAck => v.(helper := Acked(v.helper.reply), toBridge := v.toBridge + [AckLine(v.id)])
    case HelperCrash => v.(helper := Gone)
    case HelperStray(line) => v.(toBridge := v.toBridge + [line])
    // ----- command face -----
    case CommandResolve(_) =>
      v.(commands := v.commands[a.command := CommandAfter(l, a)],
         slot := if Resolves(l) then Some(v.commands[a.command].reply) else v.slot)
    case CommandMatch(_, _, _, payload) =>
      v.(commands := v.commands[a.command := CommandAfter(l, a)], asked := v.asked[a.command := payload])
    case CommandLabel(_) | CommandCompose(_) | CommandTake(_) | CommandReceive(_) | CommandGiveUp(_) =>
      v.(commands := v.commands[a.command := CommandAfter(l, a)])
    // ----- cancel connections -----
    case CancelLock => v.(cancels := v.cancels + 1)
    case CancelPublish => v.(cancels := v.cancels - 1)
    case Process => v
  }

  predicate IsCommandAction(a: Action) {
    a.CommandMatch? || a.CommandLabel? || a.CommandCompose? || a.CommandResolve? || a.CommandTake?
    || a.CommandReceive? || a.CommandGiveUp?
  }

  /** The command an action of the command face leaves behind. A purged invoke and every refused
      decision read APPROVAL_EXPIRED. */
  function CommandAfter(l: Local, a: Action): Command
    requires IsCommandAction(a) && Enabled(l, a)
  {
    var v := l.v;
    match a
    case CommandMatch(_, device, key, payload) =>
      if Link.Matches(device, key, payload, l.record) then Matched(payload)
      else Reported(Refused(Link.ApprovalExpired))
    case CommandLabel(c) =>
      var chosen := Link.ChosenLabel(v.commands[c].payload, l.record);
      if chosen.Ok? then Labelled(v.commands[c].payload, chosen.value) else Reported(Refused(chosen.error))
    case CommandCompose(c) =>
      var reply := Link.ComposedReply(v.commands[c].payload, v.commands[c].chosen, l.record);
      if reply.Ok? then Composed(reply.value) else Reported(Refused(reply.error))
    case CommandResolve(c) =>
      if Resolves(l) then Locked(v.commands[c].reply, l.now) else Reported(Refused(Link.ApprovalExpired))
    case CommandTake(c) =>
      if l.record.Some? && l.record.value.deliveryRx then Awaiting(v.commands[c].reply, v.commands[c].at)
      else Reported(OutcomeUnknown)
    case CommandReceive(_) => Reported(if v.outcome == Some(Delivered) then Completed else OutcomeUnknown)
    case CommandGiveUp(_) => Reported(OutcomeUnknown)
  }

  // ---------------------------------------------------------------------------
  // The system
  // ---------------------------------------------------------------------------

  datatype System = System(now: nat, registry: Registry, invokes: map<string, Invoke>)

  datatype Step =
    | Tick(elapsed: nat)
    | Register(id: string, info: InvokeInfo, wait: nat)
    | At(id: string, action: Action)

  function View(s: System, id: string): Local
    requires id in s.invokes
  {
    Local(if id in s.registry then Some(s.registry[id]) else None, s.invokes[id], s.now)
  }

  function NewInvoke(id: string, info: InvokeInfo, deadline: nat): Invoke {
    Invoke(id, info, deadline, Handler.Registered, true, None, None, Listening, [], [], Reading, map[], map[], 0, None, [])
  }

  /** Invoke ids are fresh UUIDs: a registration either meets a record with its id (and is
      refused as a duplicate) or uses an id no registration had before. */
  predicate StepEnabled(s: System, step: Step) {
    match step
    case Tick(_) => true
    case Register(id, _, _) => id in s.registry || id !in s.invokes
    case At(id, a) => id in s.invokes && Enabled(View(s, id), a)
  }

  function Next(s: System, step: Step): System
    requires StepEnabled(s, step)
  {
    match step
    case Tick(elapsed) => s.(now := s.now + elapsed)
    case Register(id, info, wait) =>
      if id in s.registry then s
      else s.(registry := Pending.Registered(s.registry, id, info, s.now, wait),
              invokes := s.invokes[id := NewInvoke(id, info, s.now + wait)])
    case At(id, a) =>
      var l := Act(View(s, id), a);
      s.(registry := if l.record.Some? then s.registry[id := l.record.value] else s.registry,
         invokes := s.invokes[id := l.v])
  }

  const START := System(0, map[], map[])

  /** The system after a run from the start, or None if a step was not enabled where it was
      taken. */
  function After(run: seq<Step>): Option<System> {
    if run == [] then Some(START)
    else
      var before := After(run[..|run| - 1]);
      if before.Some? && StepEnabled(before.value, run[|run| - 1])
      then Some(Next(before.value, run[|run| - 1]))
      else None
  }
}
