# Agent Console: a verified model of the Bridge's protocols

The Bridge is a desktop process between coding agents on one machine and browsers elsewhere. A hook of an
agent asks the Bridge whether a tool may run; the Bridge shows a card in the browser, takes one decision,
sends it to the helper process that waits on a socket, and reports the decision as completed only after the
helper acknowledged that it printed it. Besides that, the Bridge numbers and buffers outbound event streams,
accepts write commands at most once, keeps one queued next turn per session, and serves bounded pages of
command output and single byte ranges of files. This project models those parts in Dafny and proves what they
promise.

## Layout

| files | models |
|---|---|
| `Contract.dfy`, `Pending.dfy` | the message alphabet and the registry of pending invokes, a class whose methods are tied to functions on records |
| `PendingLifecycle.dfy`, `Purge.dfy` | every sequence of registry calls on one record; the registry that forgets against one that does not |
| `Link.dfy` | routing of browser commands, composition of replies, cards |
| `Protocol.dfy`, `ProtocolInvariant.dfy`, `ProtocolTheorems.dfy` | handlers, helpers, commands, cancels and registrations as one transition system, its invariant, and what follows for every run |
| `Mcp.dfy` | the MCP stdio server's loop |
| `Streams.dfy`, `StreamTheorems.dfy` | list and session streams, and every interleaving of the sections that fill and drain them |
| `OutputPages.dfy`, `Utf8.dfy`, `Decimal.dfy` | the bounded output buffer, its cursor paging, UTF-8-safe splitting, decimal text |
| `Gateway.dfy`, `GatewayRuns.dfy` | the write-command gateway and its receipt rows; concurrent submissions, crashes and restarts |
| `Queue.dfy`, `QueueRuns.dfy` | the single-slot next-turn queue and every run of one session's operations and events |
| `Ranges.dfy`, `RateLimiter.dfy`, `GitStatus.dfy` | single HTTP ranges, the relay's self-cleaning rate limiter, the `git status -z` parser |

State that the Rust code changes under a lock is a class here; each method's contract equates the new state
with a function of the old one, and the run theorems are about those functions. A value the code reads from
outside (the clock, a snapshot, whether a write works, whether the peer still listens) is a parameter. Time is
a natural number that never decreases. A run is a finite sequence of steps in any order the code allows: one
step is one critical section, one channel or socket operation, or one write.

## Findings

Where a promise does not hold of the code as it stands, the model keeps the code, shows the failing case and
proves exactly when the promise does hold.

- Cards. Three runs leave a card in the browser for good. The helper vanishes and a click hits the dropped
  reply channel before the handler settles (`LostHelperLeavesCard`). A cancel event between registration and
  publication removes the card before it is added (`EarlyCancelLeavesCard`). A click after the deadline expires
  the record, another registration drops it, and the time-out branch then finds nothing to settle
  (`PurgedRecordLeavesCard`). `CardStaysExactlyWhen` gives the exact condition over every run: the closing
  section saw a state the handler does not answer for, and every effective cancel was published while the
  handler had not yet published the card.
- Purge. A registration may drop an expired record whose handler is still at work. No decision comes out
  differently (`PurgeIsInvisible`); `take_delivery`, `expire_or_already_expired` and `mark_runtime_processed`
  can tell, exactly as `WhereForgettingShows` says.
- Session streams. A failed snapshot fetch ends the buffering but neither sends nor clears the buffer: the
  next event overtakes the buffered ones and precedes any snapshot (`FailedFetchReorders`). `InOrderExactlyWhen`
  gives the condition, readable before each dispatch: the stream no longer buffers, but holds events back or
  has sent nothing.
- Queue. A completed automatic send whose delete fails is made again (`LostDeleteSendsTwice`);
  `StillQueuedExactlyWhen` says which lost write leaves the entry queued.
- Receipts. A shutdown takes all commands out of the table and then stores and sends for each, wherever its
  forwarder has got to. The caller may be sent two terminal receipts (`ShutdownMaySendTwo`); over every run a
  command that has ended sent exactly one, the last, if and only if the shutdown sent it none
  (`ExactlyOneTerminal`), and the shutdown deals with exactly the commands in the table when it drained it
  (`DrainedExactlyWhen`). It may also write over a terminal status, and a retry after the restart is then
  answered OUTCOME_UNKNOWN though its caller was sent COMPLETED (`DrainedReplayFlips`);
  `ReplayReturnsFinalState` says exactly when a replay is true to what was sent.
- Ranges. A range from 0 of an empty file is answered with the empty file, not with an error, although
  the comment at files/policy.rs says that any range of an empty file is unsatisfiable
  (`UnsatisfiableFailsExactlyWhen`).
- Git status. Up to two bytes after the last entry are ignored (`ParseExplained`).

## Model

| member | source | states |
|---|---|---|
| Contract.ClampWaitMs | apps/bridge/src/zcode/contract.rs:209-211 | the requested wait if it lies between the bounds, else the bound it passes |
| Pending.PendingRegistry.Register | apps/bridge/src/zcode/pending.rs:151-190 | a known id is a duplicate and changes nothing; otherwise ended records past their deadline are dropped and a waiting record is added |
| Pending.PendingRegistry.Resolve | apps/bridge/src/zcode/pending.rs:195-224 | the first valid decision wins, with the error and the new state of every other case, and what went into the reply channel |
| Pending.PendingRegistry.TakeDelivery | apps/bridge/src/zcode/pending.rs:228-240 | the receiving end is handed out once |
| Pending.PendingRegistry.CompleteDelivery | apps/bridge/src/zcode/pending.rs:244-262 | only a decided record moves; what is sent to the waiting command |
| Pending.PendingRegistry.MarkRuntimeProcessed | apps/bridge/src/zcode/pending.rs:265-273 | only a returned record moves |
| Pending.PendingRegistry.Expire | apps/bridge/src/zcode/pending.rs:275-284 | only a waiting record expires |
| Pending.PendingRegistry.ExpireOrAlreadyExpired | apps/bridge/src/zcode/pending.rs:294-308 | true exactly for waiting and expired records, in one section |
| Pending.PendingRegistry.FinalizeDecidedAfterRace | apps/bridge/src/zcode/pending.rs:317-328 | a decided record whose decision cannot be delivered expires |
| Pending.PendingRegistry.Cancel | apps/bridge/src/zcode/pending.rs:330-340 | only a waiting record is cancelled; its responder is dropped |
| PendingLifecycle.StepKeepsOwnership | apps/bridge/src/zcode/pending.rs:195-340 | each call keeps channel ownership and moves the state along the allowed, rank-increasing edges only |
| PendingLifecycle.OwnershipAlways | apps/bridge/src/zcode/pending.rs:212-216 | after any calls a waiting record has its responder, so the missing-responder branch is unreachable |
| PendingLifecycle.AtMostThreeMoves | apps/bridge/src/zcode/pending.rs:37-60 | any sequence of calls makes at most three transitions, fewer from a later state |
| PendingLifecycle.DecidedAndReportedOnce | apps/bridge/src/zcode/pending.rs:195-262 | at most one accepted decision and one delivery outcome per registration, and no outcome without a decision |
| PendingLifecycle.ThreeMovesReached | apps/bridge/src/zcode/pending.rs:195-273 | a decision in time, its delivery and its processing make three transitions and end in the processed state |
| Purge.StepSimulates | apps/bridge/src/zcode/pending.rs:169-170 | every call keeps the simulation between the forgetting and the remembering registry and answers decision calls alike |
| Purge.PurgeIsInvisible | apps/bridge/src/zcode/pending.rs:166-211 | over every legal history both registries give the same answers to registrations, decisions, completions, expiries, race settlements and cancels |
| Purge.WhereForgettingShows | apps/bridge/src/zcode/pending.rs:228-308 | the exact condition under which one of the remaining calls can tell that a record was forgotten |
| Link.CardIsDecidable | apps/bridge/src/zcode/link.rs:251-264 | a card is shown for a session exactly if a command for that session is routed to its invoke and would be accepted |
| Link.PublishedIsShown | apps/bridge/src/zcode/link.rs:567-570 | a card is published exactly for the invokes that some session shows while they wait |
| Link.MatchesExactly | apps/bridge/src/zcode/link.rs:440-480 | a command reaches an invoke exactly under this device's ZCode key for the invoke's session and with a payload of its kind |
| Link.ReplyIsTheChoice | apps/bridge/src/zcode/link.rs:482-541 | a reply is composed exactly if the choice is one of the invoke's, and it is that choice: allow, deny, the named option, the given text where text is allowed |
| Link.AnswerIsUnique | apps/bridge/src/zcode/link.rs:482-541 | a payload has at most one reply that answers it |
| Link.OptionIdNames | apps/bridge/src/zcode/pending.rs:398-408 | the published id of an option names that option and no other |
| Link.OptionRoundTrip | apps/bridge/src/zcode/pending.rs:398-408 | the id published for the i-th option is resolved to the i-th option's text, any later id to nothing |
| Link.RoutedReplyFits | apps/bridge/src/zcode/link.rs:440-550 | a routed command composes a reply of its invoke's kind, and only options the invoke offered |
| ProtocolInvariant.HandlerAdvances | apps/bridge/src/zcode/server.rs:330-400 | each handler step leads to a place whose assertion about record, channels, connection and log holds |
| ProtocolInvariant.ResolveKeepsHandler | apps/bridge/src/zcode/pending.rs:195-224 | a decision at any moment keeps the handler's assertion |
| ProtocolInvariant.CancelKeepsHandler | apps/bridge/src/zcode/link.rs:208-219 | so does a cancel event |
| ProtocolInvariant.EmittedIsCaused | apps/bridge/src/zcode/helper.rs:251-283 | every event follows its cause: output after its reply line, ack after output, completion after ack |
| ProtocolInvariant.ActKeepsInv | apps/bridge/src/zcode/server.rs:241-457 | every action of handler, helper, command, cancel and observation keeps the whole invariant of its invoke |
| ProtocolInvariant.EnvironmentKeepsInv | apps/bridge/src/zcode/pending.rs:169-170 | time passing and the purge by another registration keep it too |
| ProtocolTheorems.RunKeepsInv | apps/bridge/src/zcode/server.rs:241-457 | the invariant holds for every invoke after every run |
| ProtocolTheorems.CompletedIsHonest | apps/bridge/src/runtime/mod.rs:1353-1373 | behind every COMPLETED report the log holds, in order: the command's own decision before the deadline, which answers its payload, the same reply on the invoke's connection, the native output for it, its ack being read, the report |
| ProtocolTheorems.DecisionIsTheChoice | apps/bridge/src/zcode/link.rs:482-550 | in every run each accepted decision is the answer of its own command's payload |
| ProtocolTheorems.CompletedExactlyWhen | apps/bridge/src/runtime/mod.rs:1353-1373 | once the handler has returned, a waiting command is reported completed if and only if its reply's ack was read |
| ProtocolTheorems.RecordTellsDelivery | apps/bridge/src/zcode/pending.rs:244-273 | in every run the record was returned or processed exactly if delivery was confirmed, and an unconfirmed one is handled locally |
| ProtocolTheorems.CancelWakesHandler | apps/bridge/src/zcode/pending.rs:330-340 | a cancel of a waiting invoke lets its handler go on with `cancelled` |
| ProtocolTheorems.ClickIsCompleted | apps/bridge/src/zcode/server.rs:347-398 | a run from the start in which a click is decided, printed, acknowledged and reported completed, and its card removed |
| ProtocolTheorems.Agreement | apps/bridge/src/zcode/pending.rs:195-224 | at most one decision and one reply line per registration; the helper is told the decision or `expired`; an invoke told `expired` is never reported completed |
| ProtocolTheorems.DecidesExactlyWhen | apps/bridge/src/zcode/pending.rs:198-222 | in every reachable state a decision is accepted exactly if the record waits, the deadline lies ahead and the handler has not left its select |
| ProtocolTheorems.NoLeak | apps/bridge/src/zcode/server.rs:422-457 | a record that can still be decided or delivered has a handler that has not returned |
| ProtocolTheorems.RegistrationPurges | apps/bridge/src/zcode/pending.rs:166-190 | a registration adds a waiting record with its deadline, drops exactly the ended records at or past theirs, and keeps every other as it is |
| ProtocolTheorems.CardBalance | apps/bridge/src/zcode/server.rs:372-398 | a returned handler added its card once and removed it once or never, decided by the state its closing section saw |
| ProtocolTheorems.CardConservation | apps/bridge/src/zcode/server.rs:422-457 | without cancel and purge the decision and time-out branches remove the card exactly once, the connection branch exactly if the record waited or was decided |
| ProtocolTheorems.CardStaysExactlyWhen | apps/bridge/src/zcode/server.rs:372-457 | in every run with the handler returned: no removal follows the card if and only if the closing section saw a state the handler does not answer for and each effective cancel was published before the card |
| ProtocolTheorems.LostHelperLeavesCard | apps/bridge/src/zcode/server.rs:338-344 | a reachable run in which a lost helper and a late click leave the card |
| ProtocolTheorems.EarlyCancelLeavesCard | apps/bridge/src/zcode/link.rs:208-219 | a reachable run in which a cancel before publication leaves the card |
| ProtocolTheorems.PurgedRecordLeavesCard | apps/bridge/src/zcode/pending.rs:169-170 | a reachable run in which a late click and another registration's purge leave the card |
| Mcp.Serve | apps/bridge/src/zcode/mcp.rs:35-163 | the loop over its tables computes the history function, including where a failed write ends it |
| Mcp.OneResponse | apps/bridge/src/zcode/mcp.rs:45-160 | a call gets one response when its completion is taken, and none if a cancel for its id was taken before (section 5 of the JSON-RPC 2.0 specification) |
| Mcp.AckFollowsResponse | apps/bridge/src/zcode/mcp.rs:45-160 | a delivery ack directly follows the written response it stands for |
| Mcp.AckExactlyWhen | apps/bridge/src/zcode/mcp.rs:136-158 | a completed call is acknowledged once, exactly if its result carries an ack and was written: the loop ran, no cancel for its id came before, the write worked |
| Mcp.OthersAnsweredOnce | apps/bridge/src/zcode/mcp.rs:45-160 | every other request, invalid call and unparsable line taken while the loop runs is answered once if its write works, and nothing else is |
| Mcp.OpenExactlyWhen | apps/bridge/src/zcode/mcp.rs:45-160 | the loop runs on exactly if no write of a due response failed |
| Mcp.CancelIsAskedFor | apps/bridge/src/zcode/mcp.rs:45-160 | a cancel is sent on only for a call made before and cancelled by the client |
| Mcp.CancelIsPropagated | apps/bridge/src/zcode/mcp.rs:45-160 | a cancel taken while its call is in flight is sent on for that call's own invoke, whatever is written later |
| Streams.RuntimeState.Send | apps/bridge/src/runtime/mod.rs:1877-1883 | a frame carries the stream's id, epoch and next sequence, and the sequence advances |
| Streams.RuntimeState.EstablishListBegin | apps/bridge/src/runtime/mod.rs:621-645 | a new epoch, sequence 1, buffering with an empty buffer; which id the stream gets |
| Streams.RuntimeState.EstablishListFinish | apps/bridge/src/runtime/mod.rs:682-697 | the snapshot and then the buffered summary events go out in order, numbered on; the buffer is empty |
| Streams.RuntimeState.EstablishSessionBegin | apps/bridge/src/runtime/mod.rs:712-737 | the same for a session slot |
| Streams.RuntimeState.EstablishSessionFinish | apps/bridge/src/runtime/mod.rs:773-811 | with a snapshot: snapshot and buffer go out in order; without: buffering ends and nothing else changes |
| Streams.RuntimeState.DispatchDomainEvent | apps/bridge/src/runtime/mod.rs:877-923 | an event is buffered or sent on its session's stream and, if a summary, on the list stream |
| Streams.RuntimeState.RefreshListSummary | apps/bridge/src/runtime/mod.rs:1698-1712 | a refresh is sent only on the same stream and epoch outside an establishment |
| Streams.RuntimeState.Observe | apps/bridge/src/runtime/mod.rs:1618-1635 | a changed snapshot is sent unless the stream buffers |
| Streams.RuntimeState.HandleUnsubscribe | apps/bridge/src/runtime/mod.rs:564-577 | the list stream goes if it has the id, else the session streams that have it |
| Streams.FlushedNext | apps/bridge/src/runtime/mod.rs:788-801 | flushing one more event continues the numbering of snapshot and earlier events |
| StreamTheorems.FinishedKeeps | apps/bridge/src/runtime/mod.rs:682-697 | sending the snapshot and the buffer keeps frames, buffer and dispatched events in agreement |
| StreamTheorems.DispatchedKeeps | apps/bridge/src/runtime/mod.rs:891-909 | so does a dispatch, and it is recorded exactly when it overtakes the snapshot or buffered events |
| StreamTheorems.OnSessionKeepsInv | apps/bridge/src/runtime/mod.rs:110-115 | a move of one stream leaves the frames, events and state of every other epoch as they were |
| StreamTheorems.RunKeepsInv | apps/bridge/src/runtime/mod.rs:564-947 | the invariant of all streams and epochs holds after every interleaving |
| StreamTheorems.ListStreamIsFaithful | apps/bridge/src/runtime/mod.rs:616-700 | the live list epoch's frames are numbered 1, 2, 3, ..., start with a full snapshot, and with the buffer hold exactly the summary events dispatched in the epoch, in order; nothing is buffered once the snapshot is out |
| StreamTheorems.ListEpochsStayInOrder | apps/bridge/src/runtime/mod.rs:616-700 | every list epoch, abandoned ones included, sent a snapshot first and then a prefix of what was dispatched to it |
| StreamTheorems.EveryEpochIsNumbered | apps/bridge/src/runtime/mod.rs:1877-1883 | the frames of any epoch of any stream are numbered 1, 2, 3, ... in send order |
| StreamTheorems.ListEpochCarriesItsId | apps/bridge/src/runtime/mod.rs:624-636 | whatever follows, all frames of a list epoch carry one stream id: the Relay's if given, else the one the stream had, else "list" |
| StreamTheorems.SessionEpochCarriesItsId | apps/bridge/src/runtime/mod.rs:715-731 | the same for a session's epoch and local name |
| StreamTheorems.LiveStreamsCarryTheirIds | apps/bridge/src/runtime/mod.rs:1843-1857 | a live stream has the id its epoch's frames carry |
| StreamTheorems.NamesDiffer | apps/bridge/src/runtime/mod.rs:716-716 | two sessions have two local stream names |
| StreamTheorems.OthersUntouched | apps/bridge/src/runtime/mod.rs:110-115 | a section leaves the streams it is not about alone |
| StreamTheorems.UnsubscribeExactly | apps/bridge/src/runtime/mod.rs:564-577 | an unsubscribe ends the list stream if it has the id, else exactly the session streams that have it, and sends nothing |
| StreamTheorems.RefreshExactly | apps/bridge/src/runtime/mod.rs:1698-1712 | a refresh is sent, as the next frame, exactly on the stream and epoch it was fetched for, past its establishment |
| StreamTheorems.ObserveExactly | apps/bridge/src/runtime/mod.rs:1618-1635 | an observed snapshot is sent, as the next frame, exactly if it differs and the stream is past its establishment |
| StreamTheorems.SequencesAreUnique | apps/bridge/src/runtime/mod.rs:1843-1883 | two sent frames with the same epoch and sequence are the same send |
| StreamTheorems.GaplessReceiverHoldsPrefix | apps/bridge/src/runtime/mod.rs:1859-1873 | frames that were sent and read 1..n of an epoch are exactly its first n frames, whatever else was dropped |
| StreamTheorems.GaplessReceiverHoldsHistory | apps/bridge/src/runtime/mod.rs:1859-1873 | unless a fetch failed in the epoch, they start with the snapshot and hold a prefix of the dispatched events |
| StreamTheorems.SessionStreamIsFaithful | apps/bridge/src/runtime/mod.rs:702-812 | if no fetch finishing in its epoch failed, a session stream sends its snapshot first and loses or reorders no event |
| StreamTheorems.InOrderExactlyWhen | apps/bridge/src/runtime/mod.rs:803-810 | any epoch is in order exactly if no event was dispatched while the stream, no longer buffering, held events back or had sent nothing |
| StreamTheorems.NothingLostExactlyWhen | apps/bridge/src/runtime/mod.rs:803-810 | a live session stream that no longer buffers has sent every dispatched event, in order behind a snapshot, exactly if none overtook and its buffer is empty |
| StreamTheorems.FailedFetchReorders | apps/bridge/src/runtime/mod.rs:803-810 | a failed fetch makes a later event overtake the buffered one, with no snapshot sent |
| OutputPages.OutputBuffer.Append | apps/bridge/src/runtime/mod.rs:1760-1775 | a piece is taken only at the buffer's end and only up to the bound |
| OutputPages.OutputBuffer.Replace | apps/bridge/src/runtime/mod.rs:1776-1785 | a replacement is taken up to the bound |
| OutputPages.OutputBuffer.Query | apps/bridge/src/runtime/mod.rs:1096-1138 | the page for a cursor and a page size, a bad cursor reading as 0 |
| OutputPages.BufferIsPrefix | apps/bridge/src/runtime/mod.rs:1757-1785 | lost, duplicated or reordered pieces of the true output leave a prefix of it in the buffer |
| OutputPages.ReplacementHeals | apps/bridge/src/runtime/mod.rs:1776-1785 | after a replacement with a prefix of the true output the buffer holds what fits of it and stays a prefix, whatever went before |
| OutputPages.PageIsBounded | apps/bridge/src/runtime/mod.rs:1096-1138 | a page is at most the page size and 256 KiB, full unless the buffer ends, last exactly at the end of a finished buffer; a bad cursor starts over |
| OutputPages.BufferIsTheChain | apps/bridge/src/runtime/mod.rs:1767-1775 | and exactly the chain of pieces that fit together, up to the bound |
| OutputPages.GaplessCoversAll | apps/bridge/src/runtime/mod.rs:1767-1775 | without a gap that chain covers every piece sent |
| OutputPages.BufferIsBounded | apps/bridge/src/runtime/mod.rs:1757-1785 | the buffer never exceeds 8 MiB |
| OutputPages.PagesAreThePrefix | apps/bridge/src/runtime/mod.rs:1096-1138 | following cursors while appends continue yields a prefix of the latest buffer, all of the buffer last asked when the cursor is empty |
| OutputPages.PagingTerminates | apps/bridge/src/runtime/mod.rs:1096-1138 | a client that has asked often enough for its page size to cover the buffer has met an empty cursor |
| OutputPages.PagingAlwaysEnds | apps/bridge/src/runtime/mod.rs:1096-1138 | whatever the page size, at most as many requests as the buffer bound has bytes meet an empty cursor, with the whole buffer in hand |
| Decimal.ValueOfFormat | apps/bridge/src/runtime/mod.rs:1135-1138 | a number's decimal text has its value |
| Decimal.ParseFormat | apps/bridge/src/runtime/mod.rs:1096-1138 | a formatted cursor below 2^64 is parsed back |
| Utf8.SplitUtf8Safe | apps/bridge/src/domain/text.rs:76-91 | the loop finds the largest boundary not above the limit |
| Utf8.BoundaryIsLargest | apps/bridge/src/domain/text.rs:80-83 | the cut is a boundary and no position between it and the limit is one |
| Utf8.BoundaryIff | apps/bridge/src/domain/text.rs:101-103 | in well-formed text a position is a boundary exactly if the bytes before it are well-formed, and then the bytes after it are too (section 4 of RFC 3629) |
| Utf8.SplitsExactlyWhen | apps/bridge/src/domain/text.rs:76-91 | well-formed text is split exactly if its first character fits the limit |
| Utf8.SplitIsLongest | apps/bridge/src/domain/text.rs:76-91 | the head is the longest non-empty well-formed prefix of at most the limit, the rest is well-formed |
| Utf8.SplittableExactlyWhen | apps/bridge/src/domain/text.rs:76-91 | well-formed text can be split to its end exactly if every character fits, so always from four bytes on |
| Utf8.ChunksOfText | apps/bridge/src/domain/text.rs:76-91 | the pieces concatenate to the text, are non-empty, well-formed, within the limit, and all but the last within three bytes of it |
| Utf8.TakePendingOutput | apps/bridge/src/adapter/codex/mapper.rs:397-425 | for any bytes and limit: one append per piece, each at the offset where the pieces before it end, or the panic exactly if a split fails |
| Utf8.SplittingIsInvisible | apps/bridge/src/adapter/codex/mapper.rs:397-425 | the emitted appends leave in the buffer what one append of the whole text would |
| Gateway.StatusRoundTrip | apps/bridge/src/commands/gateway.rs:125-134 | a stored status is read back as the state it was written for |
| Gateway.GateExactly | apps/bridge/src/commands/gateway.rs:240-284 | when a command is admitted, and the condition of each refusal code |
| Gateway.PreconditionWithoutSnapshot | apps/bridge/src/commands/gateway.rs:332-344 | without a snapshot a command goes on exactly if it expects nothing and is not to be queued, else it is rejected with the reason |
| Gateway.PreconditionHoldsExactly | apps/bridge/src/commands/gateway.rs:345-390 | a command goes on exactly if its expected turn is current and its expected revision is too, but for an interrupt that names its turn |
| Gateway.ReceiptStore.RecordReceipt | apps/bridge/src/local_store/mod.rs:187-227 | insert, replay or mismatch by request id and digest; a failing commit may or may not have stored the row |
| Gateway.ReceiptStore.UpdateReceiptStatus | apps/bridge/src/local_store/mod.rs:231-245 | the status of an existing row changes, nothing else; whether there was one |
| Gateway.CommandGateway.Submit | apps/bridge/src/commands/gateway.rs:240-449 | one submission alone: every refusal, the replay, and for an accepted command what is executed, sent and, write by write, stored |
| Gateway.CommandGateway.FinalizeReceipt | apps/bridge/src/commands/gateway.rs:566-584 | the terminal state is stored, then sent, and the command leaves the table |
| Gateway.CommandGateway.Forward | apps/bridge/src/commands/gateway.rs:484-527 | the loop sends the executor's receipts up to the first terminal one, or all and OUTCOME_UNKNOWN, and stores each whose write works |
| Gateway.CommandGateway.GracefulShutdown | apps/bridge/src/commands/gateway.rs:455-478 | run alone: every command in flight is sent OUTCOME_UNKNOWN and stored so if the write works, no other row changes, the table is empty |
| Gateway.LastWriteStands | apps/bridge/src/local_store/mod.rs:231-245 | after a command's status writes the last one that worked stands, with none the row is as it was |
| Gateway.ForwardedEndsOnce | apps/bridge/src/commands/gateway.rs:494-524 | whatever the executor streams, what is forwarded has exactly one terminal state, the last |
| Gateway.ForwardedKeepsStream | apps/bridge/src/commands/gateway.rs:494-524 | a stream that ends early is passed on unchanged and closed by OUTCOME_UNKNOWN |
| Gateway.ForwardedStopsAtEnd | apps/bridge/src/commands/gateway.rs:494-513 | a stream is passed on up to its first terminal receipt and no further |
| Gateway.OutcomeExactly | apps/bridge/src/commands/gateway.rs:393-449 | an accepted command completes exactly if its precondition holds, its dispatch does not fail, and it is a queue operation or the executor's first terminal receipt says so; every failure ends in its own code, or unknown if the executor cannot tell |
| Gateway.OutcomeEndsOnce | apps/bridge/src/commands/gateway.rs:332-449 | every way an accepted command can go ends in exactly one terminal receipt |
| GatewayRuns.StepKeepsInv | apps/bridge/src/commands/gateway.rs:286-449 | every step keeps: one owner per row, executions by owners only, and at most one per request |
| GatewayRuns.StepKeepsCommands | apps/bridge/src/commands/gateway.rs:322-326 | every step keeps, for each command: only what the table had is the shutdown's, and its channel carries one terminal state for its own end and one for being told of the shutdown |
| GatewayRuns.StepKeepsStatuses | apps/bridge/src/commands/gateway.rs:484-584 | every step keeps what the row of a command says that has stored its terminal state |
| GatewayRuns.AtMostOnce | apps/bridge/src/commands/gateway.rs:286-320 | over all concurrent submissions, failures, restarts and shutdowns a request is executed at most once |
| GatewayRuns.OnlyTheOwnerExecutes | apps/bridge/src/commands/gateway.rs:302-320 | a later submission never executes; one under the same digest is never refused as a mismatch, one under another never replayed |
| GatewayRuns.DigestDecides | apps/bridge/src/local_store/mod.rs:187-227 | at its transaction a new request is recorded and goes on, a known one is replayed or refused by its digest alone |
| GatewayRuns.TerminalsCounted | apps/bridge/src/commands/gateway.rs:455-527 | in every run, lost writes included, a channel's terminal receipts are one for the command's own end and one if the shutdown sent it one |
| GatewayRuns.ExactlyOneTerminal | apps/bridge/src/commands/gateway.rs:484-584 | the channel of a command that has ended carries exactly one terminal receipt, the last and its own, if and only if the shutdown sent it none |
| GatewayRuns.NoneBeforeTheEnd | apps/bridge/src/commands/gateway.rs:484-584 | that of one that has not ended carries none if and only if the shutdown sent it none |
| GatewayRuns.StepKeepsCauses | apps/bridge/src/commands/gateway.rs:393-449 | every step keeps: what a command sends or is about to send is backed by what it was told |
| GatewayRuns.CompletedIsBacked | apps/bridge/src/commands/gateway.rs:393-449 | in every run a COMPLETED in a channel stands behind a dispatch that did not fail and, but for queue operations, a completion received from the executor |
| GatewayRuns.EndExactly | apps/bridge/src/commands/gateway.rs:393-449 | in every run which state a command has ended in, by its precondition, its dispatch and the receipts streamed to it |
| GatewayRuns.DrainedExactlyWhen | apps/bridge/src/commands/gateway.rs:457-460 | in every run the shutdown deals with a command if and only if the table had it at a drain |
| GatewayRuns.StoredStatusExactly | apps/bridge/src/commands/gateway.rs:464-470 | the stored status of a command that has ended, its last write having worked, is that of its terminal state if and only if the shutdown did not write after it, or both are OUTCOME_UNKNOWN |
| GatewayRuns.StepKeepsSettled | apps/bridge/src/local_store/mod.rs:231-245 | the row of a request never changes again once its command has finished and no shutdown has yet to write for it |
| GatewayRuns.ReplayReturnsFinalState | apps/bridge/src/commands/gateway.rs:304-315 | for such a command whose last write worked, any later replay, across restarts, answers the terminal state its caller was sent if and only if no shutdown wrote after it, or both are OUTCOME_UNKNOWN; a command not drained was never written over |
| GatewayRuns.ShutdownMaySendTwo | apps/bridge/src/commands/gateway.rs:455-478 | a run from the start in which a shutdown sends while the forwarder waits, and the caller gets two terminal receipts |
| GatewayRuns.DrainedReplayFlips | apps/bridge/src/commands/gateway.rs:457-470 | a run from the start in which the shutdown writes over a completed command's status and a retry after the restart is answered OUTCOME_UNKNOWN |
| Queue.QueueManager.SetQueue | apps/bridge/src/commands/queue.rs:81-116 | set and replace: refusals by the existing entry's state, and the entry bound to the given snapshot |
| Queue.QueueManager.PauseQueue | apps/bridge/src/commands/queue.rs:182-200 | an entry that is not paused is; repeated pauses change nothing |
| Queue.QueueManager.CancelQueue | apps/bridge/src/commands/queue.rs:174-179 | the entry goes; whether there was one |
| Queue.QueueManager.ResumeQueue | apps/bridge/src/commands/queue.rs:205-233 | the entry is bound anew and queued, and the automatic send follows on that entry |
| Queue.QueueManager.MaybeAutoSend | apps/bridge/src/commands/queue.rs:312-398 | which entries are sent, what becomes of the entry, and the in-flight mark |
| Queue.QueueManager.HandleEvent | apps/bridge/src/commands/queue.rs:263-309 | completed turns send, failed and interrupted ones pause, a foreign turn pauses unless the in-flight mark was set |
| Queue.QueueManager.MarkPausedRow | apps/bridge/src/commands/queue.rs:401-414 | only a queued entry is paused, if the row can be read and written |
| Queue.AwaitSent | apps/bridge/src/commands/queue.rs:354-371 | the wait succeeds exactly if a completion comes before any other ending receipt |
| QueueRuns.AttemptIffReady | apps/bridge/src/commands/queue.rs:312-398 | an attempt is made exactly for a queued entry of an idle session without attention, with its prompt; it leaves the slot empty on completion and paused otherwise |
| QueueRuns.AutomaticNeverQueues | apps/bridge/src/commands/queue.rs:263-414 | no automatic path writes QUEUED or another prompt |
| QueueRuns.StillQueuedExactlyWhen | apps/bridge/src/commands/queue.rs:372-393 | after an attempt the entry is still queued exactly if its closing write, or the read before it, failed |
| QueueRuns.EventPausesExactly | apps/bridge/src/commands/queue.rs:263-309 | a turn event other than a completion sends nothing and pauses a queued entry exactly if the turn failed or was interrupted, or another turn than the entry's became active without the in-flight mark, the row being accessible |
| QueueRuns.UnsentExactly | apps/bridge/src/commands/queue.rs:312-332 | a send that makes no attempt changes the slot only if the session cannot be read |
| QueueRuns.CompletionSends | apps/bridge/src/commands/queue.rs:263-275 | a completed turn is where an entry may be sent |
| QueueRuns.SetExactly | apps/bridge/src/commands/queue.rs:81-116 | when set and replace succeed, the entry they leave, and the refusals |
| QueueRuns.PauseExactly | apps/bridge/src/commands/queue.rs:182-200 | when a pause takes effect, and that it changes the status only |
| QueueRuns.CancelExactly | apps/bridge/src/commands/queue.rs:174-179 | a cancel that can be written empties the slot |
| QueueRuns.ConfirmExactly | apps/bridge/src/commands/queue.rs:205-226 | when a resume takes effect, and that it rebinds the same prompt |
| QueueRuns.QueuedAsConfirmed | apps/bridge/src/commands/queue.rs:420-440 | in every run a queued entry has the prompt confirmed last and waits for the turn and revision of the snapshot it was confirmed against |
| QueueRuns.StepKeepsInv | apps/bridge/src/commands/queue.rs:81-414 | a queued entry always stands for the last confirmation of its prompt, not yet used or revoked |
| QueueRuns.OneAttemptPerConfirmation | apps/bridge/src/commands/queue.rs:205-233 | in every run each automatic send follows at once on a confirmation of its prompt, or on an attempt whose closing write was lost; sends are bounded by confirmations plus losses |
| QueueRuns.AttemptsWithinConfirmations | apps/bridge/src/commands/queue.rs:312-398 | with the closing writes succeeding, sends are at most the user's confirmations |
| QueueRuns.LostDeleteSendsTwice | apps/bridge/src/commands/queue.rs:372-377 | a run in which one confirmation is sent twice because the delete failed |
| Ranges.OpenSlice | apps/bridge/src/files/policy.rs:301-344 | limits in order, then the whole content or the range's bytes; sniffing does not move the start |
| Ranges.LimitsExactly | apps/bridge/src/files/policy.rs:129-147 | a file over 512 MiB is refused, a preview exactly if its kind is not previewed or not at its size, and then only the range matters |
| Ranges.ParsedIsInside | apps/bridge/src/files/policy.rs:178-224 | a parsed range is non-empty and inside the file, for any header |
| Ranges.OfferIsParsed | apps/bridge/src/runtime/transfers.rs:213-227 | an offer's header is read back as the offer, cut off at the end of the file, or refused |
| Ranges.OfferIsServedExactly | apps/bridge/src/runtime/transfers.rs:213-227 | formatting, parsing and slicing serve exactly the bytes asked for, or an error, for every 64-bit offer (section 14.1.2 of RFC 9110) |
| Ranges.UnsatisfiableFailsExactlyWhen | apps/bridge/src/files/policy.rs:199-206 | an unsatisfiable range is an error exactly if it is not a range from 0 of an empty file |
| Ranges.WholeFileExactlyWhen | apps/bridge/src/runtime/transfers.rs:213-227 | no header is made exactly if the offer covers the file; else its text |
| Ranges.SuffixIsServed | apps/bridge/src/files/policy.rs:191-200 | a suffix range serves the last bytes, all if there are fewer, and fails for none |
| Ranges.MultipleRangesRefused | apps/bridge/src/files/policy.rs:183-186 | a header with several ranges is refused |
| Ranges.BlanksIgnored | apps/bridge/src/files/policy.rs:179-187 | blanks around a header do not matter |
| RateLimiter.IpRateLimiter.RegisterHit | apps/relay/src/state.rs:502-518 | the answer and the table after a hit and the cleaning that may follow |
| RateLimiter.CleaningIsInvisible | apps/relay/src/state.rs:502-518 | for every sequence of hits the limiter answers as one that never cleans |
| RateLimiter.TableIsBounded | apps/relay/src/state.rs:514-517 | after each hit the table has at most 10,000 entries or only entries within their window |
| RateLimiter.RefusesFixedWindow | apps/relay/src/state.rs:506-518 | a hit is refused exactly if its address is over the limit counting from the hit that opened its window |
| RateLimiter.RefusedOnlyWhenBusy | apps/relay/src/state.rs:502-518 | a refused address made more hits than the limit within the last window |
| GitStatus.ReadNulField | apps/bridge/src/git/mod.rs:628-639 | the field up to the first separator and the position after it, or an error if there is none |
| GitStatus.ParseStatusZ | apps/bridge/src/git/mod.rs:595-626 | the loop computes the parse of the whole input |
| GitStatus.ParsePrint | apps/bridge/src/git/mod.rs:595-626 | printed entries are parsed back in front of anything |
| GitStatus.RoundTrip | apps/bridge/src/git/mod.rs:595-626 | printing and parsing is the identity, with up to two bytes after the last entry |
| GitStatus.ParseExplained | apps/bridge/src/git/mod.rs:595-639 | every input is well-formed entries and a rest, and the rest decides: too short and ignored, malformed, or cut off |

## Left out

- Sockets, frames, TLS, processes, SQLite, JSON and protobuf text, SHA-256 and random ids: messages are datatypes, a digest is a string, invoke and request ids of new invokes are fresh.
- `read_limited_line` and `validate_invoke` in zcode/server.rs: a line is a message, and only valid invokes register.
- The connection handler, the helper and the command face are steps of a transition system, not methods: their calls to the registry are the class methods' functions, but the model has no socket object to write to.
- `publish_summary`, revisions and summaries in zcode/link.rs: only the cards are modelled. `mark_awaiting_approval` marks are not.
- Streams: an epoch's Subscribed envelope (sequence 0, sent outside the lock), envelope correlation ids, and how fresh a snapshot is; 64-bit wrap-around of epochs and sequences.
- ProtocolTheorems.CompletedIsHonest: rests on the helper's own order of output and acknowledgement (zcode/helper.rs:251-283); a process that acknowledges what it has not printed is not among the helpers modelled.
- Mcp.OneResponse: assumes that the client does not reuse the id of a call, and that a spawned call completes at most once.
- Mcp.AckExactlyWhen: an ack is the attempt to send it; whether it arrives is up to the connection.
- OutputPages.BufferIsPrefix: states the interval between two replacements; a replacement restarts it.
- OutputPages.OutputBuffer.Query: the fallback to the adapter's own output when nothing is buffered is not modelled.
- Gateway.CommandGateway.GracefulShutdown: nothing else runs during this method; GatewayRuns lets forwarders run on between its drain, writes and sends, and lets it deal with the drained commands in any order.
- GatewayRuns.TerminalsCounted: channels have no capacity and callers do not leave; a send always reaches the channel.
- Gateway: sessions' snapshots, capabilities and executor results are arbitrary; the adapter behind them is not part of this model.
- QueueRuns.OneAttemptPerConfirmation: the steps of one session follow each other; a user operation racing an automatic send is not covered, and therefore the in-flight mark is down between steps.
- Queue: the bounded retry of busy writes is one write that works or not; receipt rows of automatic sends, which are never inserted, and the stored request id of an entry are left out.
- Ranges.OpenSlice: reading and seeking cannot fail, the file's kind is an arbitrary function of its first bytes, and the content type of the answer is left out. `end + 1` wraps, as in a build without overflow checks; with them the largest 64-bit end panics.
- RateLimiter.CleaningIsInvisible: all hits share one window length.
- GitStatus.ParseStatusZ: paths are bytes; the lossy decoding to text is left out, so paths that are not UTF-8 are kept apart here and may coincide there. `parse_numstat` is left out.
- GitStatus.ReadNulField: the field is its bytes, for the same reason.
- File identity, permissions, pairing, transport, power, capabilities, configuration, the Codex adapter, the Relay's hub and sessions, and the web app.
