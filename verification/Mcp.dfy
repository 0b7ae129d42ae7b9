/** The MCP stdio server's main loop (apps/bridge/src/zcode/mcp.rs `serve`).

    A history lists, in the order the select took them, the input lines and the completions of
    spawned calls. Request ids are their correlation keys (`rpc_id_key`, the JSON text of the
    id). */
module Mcp {
  datatype Event =
    | Call(id: string, invoke: string)     // tools/call with valid arguments; a fresh invoke id
    | BadCall(id: string)                  // tools/call with invalid arguments
    | OtherRequest(id: string)             // initialize, ping, tools/list, unknown method
    | Unparsable                           // not JSON: error response with id null
    | CancelNote(id: string)               // notifications/cancelled
    | Ignored                              // other notifications, blank and oversize lines
    | Completion(id: string, hasAck: bool) // a spawned call has its result

  /** An event and whether the write it leads to, if any, succeeds. */
  datatype Turn = Turn(event: Event, writeOk: bool)

  datatype Output =
    | Result(id: string)
    | Immediate(id: string)   // responses that need no spawned call
    | NullError
    | CancelSent(invoke: string)
    | Ack(id: string)

  datatype State = State(open: bool, inFlight: map<string, string>, cancelled: set<string>, out: seq<Output>)

  const INITIAL := State(true, map[], {}, [])

  /** A response is written, or the loop ends with the write error. */
  function Write(s: State, o: Output, ok: bool): State {
    if ok then s.(out := s.out + [o]) else s.(open := false)
  }

  function Step(s: State, t: Turn): State {
    if !s.open then s
    else
      match t.event
      case Call(id, invoke) => s.(inFlight := s.inFlight[id := invoke])
      case BadCall(id) => Write(s, Immediate(id), t.writeOk)
      case OtherRequest(id) => Write(s, Immediate(id), t.writeOk)
      case Unparsable => Write(s, NullError, t.writeOk)
      case CancelNote(id) =>
        var sent := if id in s.inFlight then s.out + [CancelSent(s.inFlight[id])] else s.out;
        s.(out := sent, cancelled := s.cancelled + {id})
      case Ignored => s
      case Completion(id, hasAck) =>
        var done := s.(inFlight := s.inFlight - {id}, cancelled := s.cancelled - {id});
        if id in s.cancelled then done
        else
          var written := Write(done, Result(id), t.writeOk);
          if t.writeOk && hasAck then written.(out := written.out + [Ack(id)]) else written
  }

  function Run(turns: seq<Turn>): State {
    if turns == [] then INITIAL else Step(Run(turns[..|turns| - 1]), turns[|turns| - 1])
  }

  /** The loop itself: the tables are variables, a failed write returns early. */
  method Serve(turns: seq<Turn>) returns (out: seq<Output>, failed: bool)
    ensures out == Run(turns).out && failed == !Run(turns).open
  {
    var inFlight: map<string, string> := map[];
    var cancelled: set<string> := {};
    out := [];
    var i := 0;
    while i < |turns|
      invariant 0 <= i <= |turns|
      invariant Run(turns[..i]) == State(true, inFlight, cancelled, out)
    {
      var event, writeOk := turns[i].event, turns[i].writeOk;
      assert turns[..i + 1][..i] == turns[..i];
      ghost var after := Step(Run(turns[..i]), turns[i]);
      assert Run(turns[..i + 1]) == after;
      match event {
        case Call(id, invoke) =>
          inFlight := inFlight[id := invoke];
        case BadCall(id) =>
          if !writeOk { ClosedStays(turns, i + 1); return out, true; }
          out := out + [Immediate(id)];
        case OtherRequest(id) =>
          if !writeOk { ClosedStays(turns, i + 1); return out, true; }
          out := out + [Immediate(id)];
        case Unparsable =>
          if !writeOk { ClosedStays(turns, i + 1); return out, true; }
          out := out + [NullError];
        case CancelNote(id) =>
          if id in inFlight {
            out := out + [CancelSent(inFlight[id])];
          }
          cancelled := cancelled + {id};
        case Ignored =>
        case Completion(id, hasAck) =>
          inFlight := inFlight - {id};
          if id in cancelled {
            cancelled := cancelled - {id};
          } else {
            assert cancelled - {id} == cancelled;
            if !writeOk { ClosedStays(turns, i + 1); return out, true; }
            out := out + [Result(id)];
            if hasAck {
              out := out + [Ack(id)];
            }
          }
      }
      i := i + 1;
    }
    assert turns[..i] == turns;
    failed := false;
  }

  lemma {:induction false} ClosedStays(turns: seq<Turn>, i: nat)
    requires i <= |turns| && !Run(turns[..i]).open
    ensures Run(turns) == Run(turns[..i])
    decreases |turns|
  {
    if i == |turns| {
      assert turns[..i] == turns;
    } else {
      var before := turns[..|turns| - 1];
      assert before[..i] == turns[..i];
      ClosedStays(before, i);
    }
  }

  // ---------------------------------------------------------------------------
  // One response per call
  // ---------------------------------------------------------------------------

  predicate Has(turns: seq<Turn>, e: Event) {
    exists i :: 0 <= i < |turns| && turns[i].event == e
  }

  predicate HasCall(turns: seq<Turn>, id: string) {
    exists i :: 0 <= i < |turns| && turns[i].event.Call? && turns[i].event.id == id
  }

  predicate HasCompletion(turns: seq<Turn>, id: string) {
    exists i :: 0 <= i < |turns| && turns[i].event.Completion? && turns[i].event.id == id
  }

  /** Call ids are unique, and each call completes at most once, after it was made. */
  predicate Legal(turns: seq<Turn>) {
    turns == [] ||
    var before, last := turns[..|turns| - 1], turns[|turns| - 1].event;
    && Legal(before)
    && (last.Call? ==> !HasCall(before, last.id))
    && (last.Completion? ==> HasCall(before, last.id) && !HasCompletion(before, last.id))
  }

  function Responses(out: seq<Output>, id: string): nat {
    if out == [] then 0
    else Responses(out[..|out| - 1], id) + (if out[|out| - 1] == Result(id) then 1 else 0)
  }

  lemma {:induction false} ResponsesAppend(out: seq<Output>, o: Output, id: string)
    ensures Responses(out + [o], id) == Responses(out, id) + (if o == Result(id) then 1 else 0)
  {
    assert (out + [o])[..|out + [o]| - 1] == out;
  }

  lemma {:induction false} StepResponses(s: State, t: Turn, id: string)
    ensures Responses(Step(s, t).out, id) == Responses(s.out, id)
              + (if s.open && t.event.Completion? && t.event.id == id && id !in s.cancelled && t.writeOk then 1 else 0)
  {
    match t.event
    case Completion(done, hasAck) => CompletionResponses(s, t, id);
    case BadCall(x) => ResponsesAppend(s.out, Immediate(x), id);
    case OtherRequest(x) => ResponsesAppend(s.out, Immediate(x), id);
    case Unparsable => ResponsesAppend(s.out, NullError, id);
    case CancelNote(x) =>
      if x in s.inFlight {
        ResponsesAppend(s.out, CancelSent(s.inFlight[x]), id);
      }
    case Call(_, _) =>
    case Ignored =>
  }

  lemma {:induction false} CompletionResponses(s: State, t: Turn, id: string)
    requires t.event.Completion?
    ensures Responses(Step(s, t).out, id) == Responses(s.out, id)
              + (if s.open && t.event.id == id && id !in s.cancelled && t.writeOk then 1 else 0)
  {
    var done := t.event.id;
    if s.open && done !in s.cancelled && t.writeOk {
      var written := s.out + [Result(done)];
      ResponsesAppend(s.out, Result(done), id);
      if t.event.hasAck {
        ResponsesAppend(written, Ack(done), id);
        assert Step(s, t).out == written + [Ack(done)];
      } else {
        assert Step(s, t).out == written;
      }
    }
  }

  /** What the tables hold while the loop runs: a call is in flight from its line to its
      completion, and a cancel is remembered until the completion it suppresses. */
  ghost predicate TablesOk(turns: seq<Turn>, id: string) {
    var s := Run(turns);
    && (HasCompletion(turns, id) ==> HasCall(turns, id))
    && (s.open ==>
      && (id in s.inFlight <==> HasCall(turns, id) && !HasCompletion(turns, id))
      && (!HasCompletion(turns, id) ==> (id in s.cancelled <==> Has(turns, CancelNote(id)))))
  }

  lemma {:induction false} HasExtends(turns: seq<Turn>, t: Turn, id: string)
    ensures HasCall(turns + [t], id) <==> HasCall(turns, id) || (t.event.Call? && t.event.id == id)
    ensures HasCompletion(turns + [t], id) <==> HasCompletion(turns, id) || (t.event.Completion? && t.event.id == id)
    ensures Has(turns + [t], CancelNote(id)) <==> Has(turns, CancelNote(id)) || t.event == CancelNote(id)
  {
    var longer := turns + [t];
    assert longer[|turns|] == t;
    assert forall i :: 0 <= i < |turns| ==> longer[i] == turns[i];
  }

  lemma {:induction false} Tables(turns: seq<Turn>, id: string)
    requires Legal(turns)
    ensures TablesOk(turns, id)
  {
    if turns != [] {
      var before, last := turns[..|turns| - 1], turns[|turns| - 1];
      Tables(before, id);
      assert turns == before + [last];
      HasExtends(before, last, id);
    }
  }

  lemma {:induction false} NoneBeforeCompletion(turns: seq<Turn>, id: string)
    requires !HasCompletion(turns, id)
    ensures Responses(Run(turns).out, id) == 0
  {
    if turns != [] {
      var before, last := turns[..|turns| - 1], turns[|turns| - 1];
      assert turns == before + [last];
      HasExtends(before, last, id);
      NoneBeforeCompletion(before, id);
      StepResponses(Run(before), last, id);
    }
  }

  /** A tools/call whose completion is taken at turn k gets exactly one response in the whole
      history, unless a cancel for its id was taken before k: then it gets none. (If the write
      itself fails, or an earlier one did, it gets none and the server ends.) */
  lemma {:induction false} OneResponse(turns: seq<Turn>, k: nat, id: string, hasAck: bool)
    requires Legal(turns) && k < |turns| && turns[k].event == Completion(id, hasAck)
    ensures Responses(Run(turns).out, id)
         == if Has(turns[..k], CancelNote(id)) || !turns[k].writeOk || !Run(turns[..k]).open then 0 else 1
  {
    var before, last := turns[..|turns| - 1], turns[|turns| - 1];
    assert turns == before + [last];
    if k == |turns| - 1 {
      NoneBeforeCompletion(before, id);
      Tables(before, id);
    } else {
      assert before[k] == turns[k] && before[..k] == turns[..k];
      OneResponse(before, k, id, hasAck);
      assert HasCompletion(before, id);
    }
    StepResponses(Run(before), last, id);
  }

  /** An ack directly follows the response it stands for. */
  lemma {:induction false} AckFollowsResponse(turns: seq<Turn>, j: nat)
    requires j < |Run(turns).out| && Run(turns).out[j].Ack?
    ensures 0 < j && Run(turns).out[j - 1] == Result(Run(turns).out[j].id)
  {
    var before, last := turns[..|turns| - 1], turns[|turns| - 1];
    if j < |Run(before).out| {
      AckFollowsResponse(before, j);
      StepKeepsOutput(Run(before), last);
    } else {
      AckOfStep(Run(before), last, j);
    }
  }

  lemma {:induction false} StepKeepsOutput(s: State, t: Turn)
    ensures s.out <= Step(s, t).out
  {
  }

  lemma {:induction false} AckOfStep(s: State, t: Turn, j: nat)
    requires |s.out| <= j < |Step(s, t).out| && Step(s, t).out[j].Ack?
    ensures 0 < j && Step(s, t).out[j - 1] == Result(Step(s, t).out[j].id)
  {
  }

  // ---------------------------------------------------------------------------
  // One ack per acknowledged result
  // ---------------------------------------------------------------------------

  function Acks(out: seq<Output>, id: string): nat {
    if out == [] then 0
    else Acks(out[..|out| - 1], id) + (if out[|out| - 1] == Ack(id) then 1 else 0)
  }

  lemma {:induction false} AcksAppend(out: seq<Output>, o: Output, id: string)
    ensures Acks(out + [o], id) == Acks(out, id) + (if o == Ack(id) then 1 else 0)
  {
    assert (out + [o])[..|out + [o]| - 1] == out;
  }

  lemma {:induction false} CompletionAcks(s: State, t: Turn, id: string)
    requires t.event.Completion?
    ensures Acks(Step(s, t).out, id) == Acks(s.out, id)
              + (if s.open && t.event.id == id && id !in s.cancelled && t.writeOk && t.event.hasAck then 1 else 0)
  {
    var done := t.event.id;
    if s.open && done !in s.cancelled && t.writeOk {
      var written := s.out + [Result(done)];
      AcksAppend(s.out, Result(done), id);
      if t.event.hasAck {
        AcksAppend(written, Ack(done), id);
        assert Step(s, t).out == written + [Ack(done)];
      } else {
        assert Step(s, t).out == written;
      }
    }
  }

  lemma {:induction false} StepAcks(s: State, t: Turn, id: string)
    ensures Acks(Step(s, t).out, id) == Acks(s.out, id)
              + (if s.open && t.event.Completion? && t.event.id == id && id !in s.cancelled && t.writeOk && t.event.hasAck then 1 else 0)
  {
    match t.event
    case Completion(done, hasAck) => CompletionAcks(s, t, id);
    case BadCall(x) => AcksAppend(s.out, Immediate(x), id);
    case OtherRequest(x) => AcksAppend(s.out, Immediate(x), id);
    case Unparsable => AcksAppend(s.out, NullError, id);
    case CancelNote(x) =>
      if x in s.inFlight {
        AcksAppend(s.out, CancelSent(s.inFlight[x]), id);
      }
    case Call(_, _) =>
    case Ignored =>
  }

  lemma {:induction false} NoAckBeforeCompletion(turns: seq<Turn>, id: string)
    requires !HasCompletion(turns, id)
    ensures Acks(Run(turns).out, id) == 0
  {
    if turns != [] {
      var before, last := turns[..|turns| - 1], turns[|turns| - 1];
      assert turns == before + [last];
      HasExtends(before, last, id);
      NoAckBeforeCompletion(before, id);
      StepAcks(Run(before), last, id);
    }
  }

  /** A call whose completion is taken at turn k is acknowledged in the whole history, and then once, exactly
      if its result carries an ack and was written: the loop still ran, no cancel for its id was taken
      before, and the write worked. */
  lemma {:induction false} AckExactlyWhen(turns: seq<Turn>, k: nat, id: string, hasAck: bool)
    requires Legal(turns) && k < |turns| && turns[k].event == Completion(id, hasAck)
    ensures Acks(Run(turns).out, id)
         == if hasAck && turns[k].writeOk && Run(turns[..k]).open && !Has(turns[..k], CancelNote(id)) then 1 else 0
  {
    var before, last := turns[..|turns| - 1], turns[|turns| - 1];
    assert turns == before + [last];
    if k == |turns| - 1 {
      NoAckBeforeCompletion(before, id);
      Tables(before, id);
    } else {
      assert before[k] == turns[k] && before[..k] == turns[..k];
      AckExactlyWhen(before, k, id, hasAck);
      assert HasCompletion(before, id);
    }
    StepAcks(Run(before), last, id);
  }

  // ---------------------------------------------------------------------------
  // The other requests
  // ---------------------------------------------------------------------------

  /** A line that is answered at once. */
  predicate AnsweredBy(e: Event, o: Output) {
    ((e.BadCall? || e.OtherRequest?) && o == Immediate(e.id)) || (e.Unparsable? && o == NullError)
  }

  function CountOf(out: seq<Output>, o: Output): nat {
    if out == [] then 0
    else CountOf(out[..|out| - 1], o) + (if out[|out| - 1] == o then 1 else 0)
  }

  /** How many lines that `o` answers were taken while the loop ran, their writes working. */
  function Answerable(turns: seq<Turn>, o: Output): nat {
    if turns == [] then 0
    else
      var before, last := turns[..|turns| - 1], turns[|turns| - 1];
      Answerable(before, o) + (if Run(before).open && AnsweredBy(last.event, o) && last.writeOk then 1 else 0)
  }

  lemma {:induction false} CountOfAppend(out: seq<Output>, x: Output, o: Output)
    ensures CountOf(out + [x], o) == CountOf(out, o) + (if x == o then 1 else 0)
  {
    assert (out + [x])[..|out + [x]| - 1] == out;
  }

  lemma {:induction false} CompletionAnswersNone(s: State, t: Turn, o: Output)
    requires t.event.Completion? && (o.Immediate? || o.NullError?)
    ensures CountOf(Step(s, t).out, o) == CountOf(s.out, o)
  {
    var done := t.event.id;
    if s.open && done !in s.cancelled && t.writeOk {
      var written := s.out + [Result(done)];
      CountOfAppend(s.out, Result(done), o);
      if t.event.hasAck {
        CountOfAppend(written, Ack(done), o);
        assert Step(s, t).out == written + [Ack(done)];
      } else {
        assert Step(s, t).out == written;
      }
    }
  }

  lemma {:induction false} StepAnswers(s: State, t: Turn, o: Output)
    requires o.Immediate? || o.NullError?
    ensures CountOf(Step(s, t).out, o) == CountOf(s.out, o) + (if s.open && AnsweredBy(t.event, o) && t.writeOk then 1 else 0)
  {
    match t.event
    case Completion(done, hasAck) => CompletionAnswersNone(s, t, o);
    case BadCall(x) => CountOfAppend(s.out, Immediate(x), o);
    case OtherRequest(x) => CountOfAppend(s.out, Immediate(x), o);
    case Unparsable => CountOfAppend(s.out, NullError, o);
    case CancelNote(x) =>
      if x in s.inFlight {
        CountOfAppend(s.out, CancelSent(s.inFlight[x]), o);
      }
    case Call(_, _) =>
    case Ignored =>
  }

  /** Every other request, every invalid call and every unparsable line taken while the loop runs is answered
      once if its write works, and nothing else is answered so. */
  lemma {:induction false} OthersAnsweredOnce(turns: seq<Turn>, o: Output)
    requires o.Immediate? || o.NullError?
    ensures CountOf(Run(turns).out, o) == Answerable(turns, o)
    decreases |turns|
  {
    if turns != [] {
      OthersAnsweredOnce(turns[..|turns| - 1], o);
      StepAnswers(Run(turns[..|turns| - 1]), turns[|turns| - 1], o);
    }
  }

  /** Turn k calls for a response. */
  predicate WriteDue(turns: seq<Turn>, k: nat)
    requires k < |turns|
  {
    var e := turns[k].event;
    e.BadCall? || e.OtherRequest? || e.Unparsable? || (e.Completion? && !Has(turns[..k], CancelNote(e.id)))
  }

  /** The loop runs on exactly if no write of a response has failed. */
  lemma {:induction false} OpenExactlyWhen(turns: seq<Turn>)
    requires Legal(turns)
    ensures Run(turns).open <==> forall k :: 0 <= k < |turns| && WriteDue(turns, k) ==> turns[k].writeOk
    decreases |turns|
  {
    if turns != [] {
      var n := |turns| - 1;
      var before, last := turns[..n], turns[n];
      OpenExactlyWhen(before);
      assert forall k :: 0 <= k < n ==> before[..k] == turns[..k];
      assert forall k :: 0 <= k < n ==> WriteDue(before, k) == WriteDue(turns, k);
      if last.event.Completion? {
        Tables(before, last.event.id);
      }
      assert Run(turns).open <==> Run(before).open && (WriteDue(turns, n) ==> last.writeOk);
    }
  }

  // ---------------------------------------------------------------------------
  // Cancels
  // ---------------------------------------------------------------------------

  /** A cancel is sent on only for a call the client cancelled after making it. */
  lemma {:induction false} CancelIsAskedFor(turns: seq<Turn>, invoke: string) returns (c: nat, k: nat, id: string)
    requires Legal(turns) && CancelSent(invoke) in Run(turns).out
    ensures c < k < |turns| && turns[c].event == Call(id, invoke) && turns[k].event == CancelNote(id)
    decreases |turns|
  {
    var before, last := turns[..|turns| - 1], turns[|turns| - 1];
    if CancelSent(invoke) in Run(before).out {
      c, k, id := CancelIsAskedFor(before, invoke);
    } else {
      id, k := last.event.id, |turns| - 1;
      c := InFlightWasCalled(before, id, invoke);
    }
  }

  lemma {:induction false} InFlightWasCalled(turns: seq<Turn>, id: string, invoke: string) returns (c: nat)
    requires id in Run(turns).inFlight && Run(turns).inFlight[id] == invoke
    ensures c < |turns| && turns[c].event == Call(id, invoke)
    decreases |turns|
  {
    var before, last := turns[..|turns| - 1], turns[|turns| - 1];
    if last.event == Call(id, invoke) {
      c := |turns| - 1;
    } else {
      c := InFlightWasCalled(before, id, invoke);
    }
  }

  /** A cancel taken while its call is in flight is passed on to that call's own invoke. */
  lemma {:induction false} CancelIsPropagated(turns: seq<Turn>, c: nat, k: nat, id: string, invoke: string)
    requires Legal(turns)
    requires c < k < |turns| && turns[c].event == Call(id, invoke) && turns[k].event == CancelNote(id)
    requires !HasCompletion(turns[..k], id) && Run(turns[..k]).open
    ensures CancelSent(invoke) in Run(turns).out
  {
    InFlightInvoke(turns[..k], c, id, invoke);
    LegalPrefix(turns, k);
    Tables(turns[..k], id);
    assert HasCall(turns[..k], id) by { assert turns[..k][c] == turns[c]; }
    assert turns[..k + 1][..k] == turns[..k];
    assert CancelSent(invoke) in Run(turns[..k + 1]).out;
    OutputGrows(turns, k + 1);
  }

  lemma {:induction false} LegalPrefix(turns: seq<Turn>, k: nat)
    requires Legal(turns) && k <= |turns|
    ensures Legal(turns[..k])
    decreases |turns|
  {
    if k == |turns| {
      assert turns[..k] == turns;
    } else {
      LegalPrefix(turns[..|turns| - 1], k);
      assert turns[..|turns| - 1][..k] == turns[..k];
    }
  }

  lemma {:induction false} OutputGrows(turns: seq<Turn>, k: nat)
    requires k <= |turns|
    ensures Run(turns[..k]).out <= Run(turns).out
    decreases |turns|
  {
    if k == |turns| {
      assert turns[..k] == turns;
    } else {
      OutputGrows(turns[..|turns| - 1], k);
      assert turns[..|turns| - 1][..k] == turns[..k];
    }
  }

  lemma {:induction false} InFlightInvoke(turns: seq<Turn>, c: nat, id: string, invoke: string)
    requires c < |turns| && turns[c].event == Call(id, invoke)
    ensures Legal(turns) && id in Run(turns).inFlight ==> Run(turns).inFlight[id] == invoke
    decreases |turns|
  {
    var before, last := turns[..|turns| - 1], turns[|turns| - 1];
    assert turns == before + [last];
    if c < |before| {
      InFlightInvoke(before, c, id, invoke);
      assert HasCall(before, id) by { assert before[c] == turns[c]; }
    } else if !Run(before).open {
      // the loop has ended: the call line is never read
      if Legal(turns) {
        NoEarlierCall(before, id);
      }
    }
  }

  /** A call that was never made is not in flight. */
  lemma {:induction false} NoEarlierCall(turns: seq<Turn>, id: string)
    requires !HasCall(turns, id)
    ensures id !in Run(turns).inFlight
  {
    if turns != [] {
      var before, last := turns[..|turns| - 1], turns[|turns| - 1];
      assert turns == before + [last];
      HasExtends(before, last, id);
      NoEarlierCall(before, id);
    }
  }
}
