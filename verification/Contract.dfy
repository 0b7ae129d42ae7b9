/** The helper <-> Bridge message alphabet (apps/bridge/src/zcode/contract.rs).
    A message is one line; its JSON text is not modelled. */
module Contract {
  import opened Wrappers

  const MIN_REMOTE_WAIT_MS: nat := 500
  const MAX_REMOTE_WAIT_MS: nat := 45_000

  /** One line from the Bridge to a helper. */
  datatype HookReply =
    | Allowed
    | Denied(message: string)
    | Answered(option: Option<string>, text: Option<string>)
    | Expired
    | Cancelled
    | Rejected(reason: string)
    | Accepted
  {
    /** A reply that carries a user's decision. */
    predicate IsDecision() {
      Allowed? || Denied? || Answered?
    }
  }

  datatype AskRequest = AskRequest(question: string, options: seq<string>, allowFreeText: bool)

  /** A line from the helper after its invoke: a delivery ack names the invoke it is bound to;
      everything else (garbage, oversize input) is one class. */
  datatype HelperLine = AckLine(boundTo: string) | OtherLine

  predicate IsDeliveryAck(line: HelperLine, invokeId: string) {
    line == AckLine(invokeId)
  }

  function ClampWaitMs(requested: nat): (wait: nat)
    ensures 500 <= requested <= 45000 ==> wait == requested
    ensures requested < 500 ==> wait == 500
    ensures requested > 45000 ==> wait == 45000
  {
    if requested < MIN_REMOTE_WAIT_MS then MIN_REMOTE_WAIT_MS
    else if requested > MAX_REMOTE_WAIT_MS then MAX_REMOTE_WAIT_MS
    else requested
  }
}
