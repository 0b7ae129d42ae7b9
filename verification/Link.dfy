/** Browser commands and remote cards over the registry (apps/bridge/src/zcode/link.rs). */
module Link {
  import opened Wrappers
  import opened Contract
  import opened Pending
  import Decimal

  const ASK_SESSION := "plugin-ask"

  const DECLINED := "User declined this action in Agent Console"

  datatype AgentKind = CodexDesktop | ZcodeDesktop

  datatype SessionKey = SessionKey(deviceId: string, agentKind: AgentKind, nativeSession: string)

  datatype Payload =
    | AnswerApproval(approvalId: string, decisionId: string)
    | AnswerQuestion(questionId: string, optionIds: seq<string>, freeText: string)
    | OtherPayload

  datatype StableError = ApprovalExpired | InternalError

  function TargetOf(p: Payload): Option<string> {
    match p
    case AnswerApproval(id, _) => Some(id)
    case AnswerQuestion(id, _, _) => Some(id)
    case OtherPayload => None
  }

  function Lookup(reg: Registry, id: string): Option<PendingRecord> {
    if id in reg then Some(reg[id]) else None
  }

  // ---------------------------------------------------------------------------
  // Routing
  // ---------------------------------------------------------------------------

  /** `matches_command`, given the record found under the payload's id. */
  predicate Matches(device: string, key: Option<SessionKey>, p: Payload, record: Option<PendingRecord>) {
    && key.Some?
    && key.value.deviceId == device
    && key.value.agentKind == ZcodeDesktop
    && match p
       case AnswerApproval(_, _) =>
         && record.Some?
         && record.value.info.kind == PermissionRequest
         && record.value.info.nativeSession == Some(key.value.nativeSession)
       case AnswerQuestion(_, _, _) =>
         key.value.nativeSession == ASK_SESSION && record.Some? && record.value.info.kind == AskUser
       case OtherPayload => false
  }

  // ---------------------------------------------------------------------------
  // Composing the reply
  // ---------------------------------------------------------------------------

  function OptionId(index: nat): string {
    "option-" + Decimal.Format(index + 1)
  }

  /** `ask_option_label`: option ids are 1-based decimal positions. */
  function OptionLabel(record: Option<PendingRecord>, optionId: string): Option<string> {
    if record.None? || record.value.info.kind != AskUser then None
    else if !("option-" <= optionId) then None
    else
      var index := Decimal.ParseU64(optionId[|"option-"|..]);
      var options := if record.value.info.ask.Some? then record.value.info.ask.value.options else [];
      if index.Some? && 1 <= index.value <= |options| then Some(options[index.value - 1]) else None
  }

  function AllowsFreeText(record: Option<PendingRecord>): bool {
    record.Some? && record.value.info.kind == AskUser && record.value.info.ask.Some?
    && record.value.info.ask.value.allowFreeText
  }

  /** First half of `resolve_command`: a decision id or an option id is checked. For a question
      the result is the chosen label. */
  function ChosenLabel(p: Payload, record: Option<PendingRecord>): Result<Option<string>, StableError> {
    match p
    case AnswerApproval(_, decision) =>
      if decision == "allow" || decision == "deny" then Ok(None) else Err(InternalError)
    case AnswerQuestion(_, optionIds, _) =>
      if optionIds == [] then Ok(None)
      else
        var chosen := OptionLabel(record, optionIds[0]);
        if chosen.None? then Err(InternalError) else Ok(chosen)
    case OtherPayload => Err(InternalError)
  }

  /** Second half: free text is checked and the reply is put together. */
  function ComposedReply(p: Payload, chosen: Option<string>, record: Option<PendingRecord>): Result<HookReply, StableError> {
    match p
    case AnswerApproval(_, decision) =>
      Ok(if decision == "allow" then Allowed else Denied(DECLINED))
    case AnswerQuestion(_, _, freeText) =>
      var text := if freeText == "" then None else Some(freeText);
      if text.Some? && !AllowsFreeText(record) then Err(InternalError)
      else if chosen.None? && text.None? then Err(InternalError)
      else Ok(Answered(chosen, text))
    case OtherPayload => Err(InternalError)
  }

  /** The replies that answer an invoke of this kind. */
  predicate Fits(kind: InvokeKind, reply: HookReply) {
    match kind
    case PermissionRequest => reply.Allowed? || reply.Denied?
    case AskUser => reply.Answered?
  }

  // ---------------------------------------------------------------------------
  // Cards
  // ---------------------------------------------------------------------------

  /** Approvals without a native session can never be answered, so they get no card. */
  predicate PublishesCard(info: InvokeInfo) {
    !(info.kind == PermissionRequest && info.nativeSession.None?)
  }

  /** `waiting_for`: the cards a session's snapshot shows. */
  function CardsFor(reg: Registry, session: string): set<string> {
    set id | id in reg && reg[id].state == Waiting
             && (if reg[id].info.kind == AskUser then session == ASK_SESSION
                 else reg[id].info.nativeSession == Some(session))
  }

  /** A card shown for a session is exactly an invoke that a command for that session can still
      decide: the command is routed to it and, before the deadline and while the helper's
      connection listens, its decision is accepted. */
  lemma {:induction false} CardIsDecidable(reg: Registry, device: string, session: string, p: Payload, now: nat)
    requires TargetOf(p).Some? && TargetOf(p).value in reg
    requires var r := reg[TargetOf(p).value];
             (r.state == Waiting ==> r.responder) && (p.AnswerQuestion? <==> r.info.kind == AskUser)
             && now < r.deadline
    ensures var id := TargetOf(p).value;
            (Matches(device, Some(SessionKey(device, ZcodeDesktop, session)), p, Lookup(reg, id))
             && ResolveRecord(reg[id], now, true).result.Ok?)
            <==> id in CardsFor(reg, session)
  {
  }

  /** A card is published exactly for the invokes that, while they wait, some session's snapshot shows. */
  lemma {:induction false} PublishedIsShown(reg: Registry, id: string)
    requires id in reg && reg[id].state == Waiting
    ensures PublishesCard(reg[id].info) <==> exists session :: id in CardsFor(reg, session)
  {
    var info := reg[id].info;
    if info.kind == AskUser {
      assert id in CardsFor(reg, ASK_SESSION);
    } else if info.nativeSession.Some? {
      assert id in CardsFor(reg, info.nativeSession.value);
    }
  }

  /** A command reaches an invoke only under this device's key of the ZCode agent, for the invoke's own
      session and with a payload of its kind; and then always. */
  lemma {:induction false} MatchesExactly(device: string, key: Option<SessionKey>, p: Payload, record: Option<PendingRecord>)
    ensures Matches(device, key, p, record) <==>
              exists session :: key == Some(SessionKey(device, ZcodeDesktop, session)) && record.Some?
                && ((p.AnswerApproval? && record.value.info.kind == PermissionRequest
                     && record.value.info.nativeSession == Some(session))
                    || (p.AnswerQuestion? && record.value.info.kind == AskUser && session == "plugin-ask"))
  {
    if key.Some? {
      assert key == Some(SessionKey(key.value.deviceId, key.value.agentKind, key.value.nativeSession));
    }
  }

  // ---------------------------------------------------------------------------
  // The reply is the user's choice
  // ---------------------------------------------------------------------------

  /** `optionId` is the id of option `i`, counting from 0. */
  predicate Names(optionId: string, i: nat) {
    "option-" <= optionId && Decimal.ParseU64(optionId[|"option-"|..]) == Some(i + 1)
  }

  predicate ChosenBy(info: InvokeInfo, optionId: string, chosen: string) {
    info.ask.Some? && exists i :: 0 <= i < |info.ask.value.options| && info.ask.value.options[i] == chosen && Names(optionId, i)
  }

  /** What the user asked for with `p`, of an invoke registered with `info`. */
  predicate Answers(info: InvokeInfo, p: Payload, reply: HookReply) {
    match p
    case AnswerApproval(_, decision) =>
      && info.kind == PermissionRequest
      && ((decision == "allow" && reply == Allowed) || (decision == "deny" && reply == Denied(DECLINED)))
    case AnswerQuestion(_, optionIds, freeText) =>
      && info.kind == AskUser && reply.Answered?
      && (if optionIds == [] then reply.option == None
          else reply.option.Some? && ChosenBy(info, optionIds[0], reply.option.value))
      && reply.text == (if freeText == "" then None else Some(freeText))
      && (reply.option.Some? || reply.text.Some?)
      && (reply.text.Some? ==> info.ask.Some? && info.ask.value.allowFreeText)
    case OtherPayload => false
  }

  /** What the first half leaves for the second. */
  predicate LabelAnswers(info: InvokeInfo, p: Payload, chosen: Option<string>) {
    match p
    case AnswerApproval(_, decision) => decision == "allow" || decision == "deny"
    case AnswerQuestion(_, optionIds, _) =>
      if optionIds == [] then chosen == None else chosen.Some? && ChosenBy(info, optionIds[0], chosen.value)
    case OtherPayload => false
  }

  predicate KindFits(info: InvokeInfo, p: Payload) {
    match p
    case AnswerApproval(_, _) => info.kind == PermissionRequest
    case AnswerQuestion(_, _, _) => info.kind == AskUser
    case OtherPayload => false
  }

  lemma {:induction false} LabelChosen(info: InvokeInfo, p: Payload, record: Option<PendingRecord>)
    requires KindFits(info, p) && (record.Some? ==> record.value.info == info)
    requires ChosenLabel(p, record).Ok?
    ensures LabelAnswers(info, p, ChosenLabel(p, record).value)
  {
    if p.AnswerQuestion? && p.optionIds != [] {
      var index := Decimal.ParseU64(p.optionIds[0][|"option-"|..]);
      assert Names(p.optionIds[0], index.value - 1);
    }
  }

  lemma {:induction false} ReplyComposed(info: InvokeInfo, p: Payload, chosen: Option<string>, record: Option<PendingRecord>)
    requires KindFits(info, p) && (record.Some? ==> record.value.info == info)
    requires LabelAnswers(info, p, chosen) && ComposedReply(p, chosen, record).Ok?
    ensures Answers(info, p, ComposedReply(p, chosen, record).value)
  {
  }

  lemma {:induction false} AnswerIsUnique(info: InvokeInfo, p: Payload, a: HookReply, b: HookReply)
    requires Answers(info, p, a) && Answers(info, p, b)
    ensures a == b
  {
  }

  /** A command on an invoke that is still registered composes a reply exactly if the user's choice is one
      of the invoke's, and the reply is that choice. */
  lemma {:induction false} ReplyIsTheChoice(record: PendingRecord, p: Payload)
    requires KindFits(record.info, p)
    ensures var labelled := ChosenLabel(p, Some(record));
            var reply := if labelled.Ok? then ComposedReply(p, labelled.value, Some(record)) else Err(labelled.error);
            && (reply.Ok? ==> Answers(record.info, p, reply.value))
            && (reply.Ok? <==> exists answer :: Answers(record.info, p, answer))
  {
    var labelled := ChosenLabel(p, Some(record));
    if labelled.Ok? {
      LabelChosen(record.info, p, Some(record));
      if ComposedReply(p, labelled.value, Some(record)).Ok? {
        ReplyComposed(record.info, p, labelled.value, Some(record));
      }
    }
  }

  /** Ids and options correspond one to one: the i-th published id names option i and no other. */
  lemma {:induction false} OptionIdNames(i: nat, j: nat)
    requires i < Decimal.U64_MAX
    ensures Names(OptionId(i), j) <==> i == j
  {
    assert OptionId(i)[|"option-"|..] == Decimal.Format(i + 1);
    Decimal.ParseFormat(i + 1);
  }

  /** The i-th option of a published question, picked in the browser, reaches the helper as the
      i-th option's own text; any other id is refused. */
  lemma {:induction false} OptionRoundTrip(record: PendingRecord, i: nat)
    requires record.info.kind == AskUser && record.info.ask.Some?
    requires |record.info.ask.value.options| <= Decimal.U64_MAX
    ensures var options := record.info.ask.value.options;
            OptionLabel(Some(record), OptionId(i)) == if i < |options| then Some(options[i]) else None
  {
    var prefix := "option-";
    assert OptionId(i)[|prefix|..] == Decimal.Format(i + 1);
    Decimal.ValueOfFormat(i + 1);
    assert Decimal.IsDigit(Decimal.Format(i + 1)[0]);
  }

  /** Whatever a routed command composes fits the kind of the invoke it was routed to, and the
      option text of an answer is one of the invoke's own options. */
  lemma {:induction false} RoutedReplyFits(device: string, key: Option<SessionKey>, p: Payload,
                        record: PendingRecord, atLabel: Option<PendingRecord>, atText: Option<PendingRecord>)
    requires Matches(device, key, p, Some(record))
    requires ChosenLabel(p, atLabel).Ok?
    requires ComposedReply(p, ChosenLabel(p, atLabel).value, atText).Ok?
    requires atLabel == None || atLabel == Some(record)
    ensures var reply := ComposedReply(p, ChosenLabel(p, atLabel).value, atText).value;
            && Fits(record.info.kind, reply)
            && (reply.Answered? && reply.option.Some? ==>
                  record.info.ask.Some? && reply.option.value in record.info.ask.value.options)
  {
  }
}
