/** Every run of one session's queue: user operations, turn events and the automatic sends they cause. */
module QueueRuns {
  import opened Wrappers
  import opened Gateway
  import opened Queue

  datatype Action =
    | DoSet(prompt: string, replace: bool, snapshot: SessionSnapshot, access: Access)
    | DoPause(access: Access)
    | DoCancel(access: Access)
    | DoResume(confirmWith: Result<SessionSnapshot, Code>, access: Access, x: Encounter)
    | DoEvent(event: TurnEvent, x: Encounter)

  /** What a reader of the run cares about. `Lost`: the write that was to take the entry away after an
      attempt failed. */
  datatype Mark = Confirmed(prompt: string, snapshot: SessionSnapshot) | Attempted(prompt: string) | Revoked | Lost

  datatype State = State(slot: Slot, log: seq<Mark>)

  const START := State(None, [])

  /** The marks of an automatic path that took `slot` to `effect`. */
  function Marks(slot: Slot, effect: Effect): seq<Mark> {
    if effect.attempt.Some? then [Attempted(effect.attempt.value)] + if IsQueued(effect.slot) then [Lost] else []
    else if IsQueued(slot) && !IsQueued(effect.slot) then [Revoked]
    else []
  }

  function Automatic(s: State, effect: Effect): State {
    State(effect.slot, s.log + Marks(s.slot, effect))
  }

  function Step(s: State, a: Action): State {
    match a
    case DoSet(prompt, replace, snapshot, access) =>
      var (r, slot) := Set(s.slot, prompt, replace, snapshot, access);
      State(slot, s.log + if r.Ok? then [Confirmed(prompt, snapshot)] else [])
    case DoPause(access) =>
      var (r, slot) := Pause(s.slot, access);
      State(slot, s.log + if r == Ok(true) then [Revoked] else [])
    case DoCancel(access) =>
      var (r, slot) := Cancel(s.slot, access);
      State(slot, s.log + if r.Ok? then [Revoked] else [])
    case DoResume(snapshot, access, x) =>
      var (r, slot) := Confirm(s.slot, snapshot, access);
      if r.Ok? && r.value.Some? && snapshot.Ok?
      then Automatic(State(slot, s.log + [Confirmed(r.value.value.prompt, snapshot.value)]), AutoSend(slot, x))
      else State(slot, s.log)
    case DoEvent(event, x) => Automatic(s, OnEvent(s.slot, false, event, x))
  }

  function After(run: seq<Action>): State {
    if run == [] then START else Step(After(run[..|run| - 1]), run[|run| - 1])
  }

  // ---------------------------------------------------------------------------
  // One automatic send
  // ---------------------------------------------------------------------------

  predicate Ready(slot: Slot, x: Encounter) {
    && x.readable && IsQueued(slot)
    && x.snapshot.Ok? && x.snapshot.value.currentTurn.None?
    && x.snapshot.value.questions == 0 && x.snapshot.value.approvals == 0
  }

  predicate CompletedFirst(x: Encounter) {
    x.failure.None? && Sent(x.receipts)
  }

  /** An attempt is made exactly when the entry is QUEUED, the session idle and no attention pending; it
      carries the entry's prompt and, its last write succeeding, leaves the slot empty on COMPLETED and
      PAUSED otherwise. */
  lemma {:induction false} AttemptIffReady(slot: Slot, x: Encounter)
    ensures var effect := AutoSend(slot, x);
            && (effect.attempt.Some? <==> Ready(slot, x))
            && (effect.attempt.Some? ==> effect.attempt.value == slot.value.prompt)
            && (effect.attempt.Some? && x.after == Access(true, true) ==>
                  effect.slot == if CompletedFirst(x) then None else Some(slot.value.(status := Paused)))
  {
  }

  /** No automatic path writes QUEUED: an entry that is queued afterwards was there, unchanged. */
  lemma {:induction false} AutomaticNeverQueues(slot: Slot, inflight: bool, event: TurnEvent, x: Encounter)
    ensures var after := OnEvent(slot, inflight, event, x).slot;
            (IsQueued(after) ==> after == slot) && (after.Some? ==> slot.Some? && after.value.prompt == slot.value.prompt)
  {
  }

  /** After an attempt the entry is still QUEUED exactly when the write that should have taken it away was
      lost: the delete after a completion, or a read or write of the pause after anything else. */
  lemma {:induction false} StillQueuedExactlyWhen(slot: Slot, x: Encounter)
    requires Ready(slot, x)
    ensures IsQueued(AutoSend(slot, x).slot) <==>
              !x.after.writable || (!CompletedFirst(x) && !x.after.readable)
  {
  }

  /** Without an attempt an automatic send changes the slot only if the session cannot be read: then a queued
      entry is paused, its row being accessible. */
  lemma {:induction false} UnsentExactly(slot: Slot, x: Encounter)
    requires AutoSend(slot, x).attempt.None?
    ensures AutoSend(slot, x).slot ==
              if IsQueued(slot) && x.readable && x.snapshot.Err? && x.after == Access(true, true)
              then Some(slot.value.(status := Paused)) else slot
  {
  }

  /** A turn event that is not a completion sends nothing. It pauses a queued entry, its row being accessible,
      exactly if the turn failed or was interrupted, or a turn that is not the entry's became active and was
      not one of ours; otherwise the slot stays. */
  lemma {:induction false} EventPausesExactly(slot: Slot, inflight: bool, event: TurnEvent, x: Encounter)
    requires event != TurnEnded(TurnCompleted)
    ensures var effect := OnEvent(slot, inflight, event, x);
            var broken := event == TurnEnded(TurnFailed) || event == TurnEnded(TurnInterrupted);
            var overtaken := IsQueued(slot) && event.TurnActive? && event.turn != slot.value.afterTurn && !inflight && x.readable;
            && effect.attempt == None
            && effect.slot ==
                 if IsQueued(slot) && (broken || overtaken) && x.after == Access(true, true)
                 then Some(slot.value.(status := Paused)) else slot
  {
  }

  /** A completed turn is where an entry may be sent, and only there. */
  lemma {:induction false} CompletionSends(slot: Slot, inflight: bool, x: Encounter)
    ensures OnEvent(slot, inflight, TurnEnded(TurnCompleted), x) == AutoSend(slot, x)
  {
  }

  // ---------------------------------------------------------------------------
  // The user's operations
  // ---------------------------------------------------------------------------

  lemma {:induction false} SetExactly(slot: Slot, prompt: string, replace: bool, s: SessionSnapshot, access: Access)
    ensures var (r, after) := Set(slot, prompt, replace, s, access);
            && (r.Ok? <==> access == Access(true, true) && (slot.None? || replace))
            && (r.Ok? ==> after == Some(r.value) && r.value.prompt == prompt && r.value.status == Queued && BoundTo(r.value, s))
            && (r.Err? ==> after == slot)
            && (r == Err(QueuePaused) <==> access.readable && !replace && slot.Some? && slot.value.status == Paused)
            && (r == Err(QueueAlreadyExists) <==> access.readable && !replace && slot.Some? && slot.value.status != Paused)
  {
  }

  lemma {:induction false} PauseExactly(slot: Slot, access: Access)
    ensures var (r, after) := Pause(slot, access);
            && (r == Ok(true) <==> access == Access(true, true) && slot.Some? && slot.value.status != Paused)
            && (r == Ok(false) <==> access.readable && (slot.None? || slot.value.status == Paused))
            && after == if r == Ok(true) then Some(slot.value.(status := Paused)) else slot
  {
  }

  lemma {:induction false} CancelExactly(slot: Slot, access: Access)
    ensures var (r, after) := Cancel(slot, access);
            if access.writable then r == Ok(slot.Some?) && after == None else r.Err? && after == slot
  {
  }

  lemma {:induction false} ConfirmExactly(slot: Slot, s: Result<SessionSnapshot, Code>, access: Access)
    ensures var (r, after) := Confirm(slot, s, access);
            var confirmed := r.Ok? && r.value.Some?;
            && (confirmed <==> access == Access(true, true) && slot.Some? && s.Ok?)
            && (confirmed ==> after == r.value && after.value.prompt == slot.value.prompt
                              && after.value.status == Queued && BoundTo(after.value, s.value))
            && (!confirmed ==> after == slot)
            && (r == Ok(None) <==> access.readable && slot.None?)
  {
  }

  // ---------------------------------------------------------------------------
  // Authorisation
  // ---------------------------------------------------------------------------

  /** The prompt the user confirmed last, and the snapshot it was confirmed against. */
  function LastConfirmed(log: seq<Mark>): Option<(string, SessionSnapshot)> {
    if log == [] then None
    else if log[|log| - 1].Confirmed? then Some((log[|log| - 1].prompt, log[|log| - 1].snapshot))
    else LastConfirmed(log[..|log| - 1])
  }

  predicate Armed(log: seq<Mark>, prompt: string) {
    log != [] && (log[|log| - 1].Confirmed? || log[|log| - 1].Lost?) 
    && LastConfirmed(log).Some? && LastConfirmed(log).value.0 == prompt
  }

  /** Each attempt follows at once on a confirmation of its very prompt, or on an attempt with it whose
      closing write was lost. Nothing was revoked in between. */
  predicate Authorised(log: seq<Mark>) {
    forall i :: 0 <= i < |log| && log[i].Attempted? ==> Armed(log[..i], log[i].prompt)
  }

  /** The entry waits for the turn that was running, or none, at the snapshot's revision. */
  predicate BoundTo(e: Entry, s: SessionSnapshot) {
    e.revision == s.revision && e.afterTurn == match s.currentTurn case Some(turn) => turn case None => "idle"
  }

  ghost predicate Inv(s: State) {
    && Authorised(s.log)
    && (IsQueued(s.slot) ==> Armed(s.log, s.slot.value.prompt) && BoundTo(s.slot.value, LastConfirmed(s.log).value.1))
  }

  lemma {:induction false} LogPrefixes(log: seq<Mark>, m: Mark)
    ensures (log + [m])[..|log|] == log
    ensures forall i :: 0 <= i < |log| ==> (log + [m])[..i] == log[..i]
  {
  }

  lemma {:induction false} MarkKeepsAuthorised(log: seq<Mark>, m: Mark)
    requires Authorised(log) && (m.Attempted? ==> Armed(log, m.prompt))
    ensures Authorised(log + [m])
    ensures LastConfirmed(log + [m]) == if m.Confirmed? then Some((m.prompt, m.snapshot)) else LastConfirmed(log)
  {
    LogPrefixes(log, m);
  }

  /** The automatic paths and the user's revocations only take authority away. */
  lemma {:induction false} AutomaticKeepsInv(s: State, effect: Effect)
    requires Inv(s)
    requires IsQueued(effect.slot) ==> effect.slot == s.slot
    requires effect.attempt.Some? ==> IsQueued(s.slot) && effect.attempt.value == s.slot.value.prompt
    ensures Inv(Automatic(s, effect))
  {
    if effect.attempt.Some? {
      var attempted := s.log + [Attempted(effect.attempt.value)];
      MarkKeepsAuthorised(s.log, Attempted(effect.attempt.value));
      if IsQueued(effect.slot) {
        MarkKeepsAuthorised(attempted, Lost);
        assert s.log + Marks(s.slot, effect) == attempted + [Lost];
      } else {
        assert s.log + Marks(s.slot, effect) == attempted;
      }
    } else if IsQueued(s.slot) && !IsQueued(effect.slot) {
      MarkKeepsAuthorised(s.log, Revoked);
    } else {
      assert s.log + Marks(s.slot, effect) == s.log;
    }
  }

  lemma {:induction false} ConfirmedKeepsInv(s: State, entry: Entry, snapshot: SessionSnapshot)
    requires Inv(s) && BoundTo(entry, snapshot)
    ensures Inv(State(Some(entry), s.log + [Confirmed(entry.prompt, snapshot)]))
  {
    MarkKeepsAuthorised(s.log, Confirmed(entry.prompt, snapshot));
  }

  lemma {:induction false} ResumeKeepsInv(s: State, confirmWith: Result<SessionSnapshot, Code>, access: Access, x: Encounter)
    requires Inv(s)
    ensures Inv(Step(s, DoResume(confirmWith, access, x)))
  {
    var (r, slot) := Confirm(s.slot, confirmWith, access);
    if r.Ok? && r.value.Some? {
      ConfirmedKeepsInv(s, r.value.value, confirmWith.value);
      AttemptIffReady(slot, x);
      SendNeverQueues(slot, x);
      AutomaticKeepsInv(State(slot, s.log + [Confirmed(r.value.value.prompt, confirmWith.value)]), AutoSend(slot, x));
    }
  }

  lemma {:induction false} SendNeverQueues(slot: Slot, x: Encounter)
    ensures IsQueued(AutoSend(slot, x).slot) ==> AutoSend(slot, x).slot == slot
    ensures AutoSend(slot, x).attempt.Some? ==> IsQueued(slot) && AutoSend(slot, x).attempt.value == slot.value.prompt
  {
  }

  lemma {:induction false} EventKeepsInv(s: State, event: TurnEvent, x: Encounter)
    requires Inv(s)
    ensures Inv(Step(s, DoEvent(event, x)))
  {
    SendNeverQueues(s.slot, x);
    AutomaticNeverQueues(s.slot, false, event, x);
    AutomaticKeepsInv(s, OnEvent(s.slot, false, event, x));
  }

  lemma {:induction false} RevocationKeepsInv(s: State, slot: Slot, revoked: bool)
    requires Inv(s) && (if revoked then !IsQueued(slot) else slot == s.slot)
    ensures Inv(State(slot, s.log + if revoked then [Revoked] else []))
  {
    if revoked {
      MarkKeepsAuthorised(s.log, Revoked);
    } else {
      assert s.log + [] == s.log;
    }
  }

  lemma {:induction false} SetKeepsInv(s: State, prompt: string, replace: bool, snapshot: SessionSnapshot, access: Access)
    requires Inv(s)
    ensures Inv(Step(s, DoSet(prompt, replace, snapshot, access)))
  {
    if Set(s.slot, prompt, replace, snapshot, access).0.Ok? {
      ConfirmedKeepsInv(s, EntryFrom(snapshot, prompt), snapshot);
    } else {
      assert s.log + [] == s.log;
    }
  }

  lemma {:induction false} StepKeepsInv(s: State, a: Action)
    requires Inv(s)
    ensures Inv(Step(s, a))
  {
    match a
    case DoSet(prompt, replace, snapshot, access) => SetKeepsInv(s, prompt, replace, snapshot, access);
    case DoPause(access) => RevocationKeepsInv(s, Pause(s.slot, access).1, Pause(s.slot, access).0 == Ok(true));
    case DoCancel(access) => RevocationKeepsInv(s, Cancel(s.slot, access).1, Cancel(s.slot, access).0.Ok?);
    case DoResume(snapshot, access, x) => ResumeKeepsInv(s, snapshot, access, x);
    case DoEvent(event, x) => EventKeepsInv(s, event, x);
  }

  lemma {:induction false} RunKeepsInv(run: seq<Action>)
    ensures Inv(After(run))
    decreases |run|
  {
    if run != [] {
      RunKeepsInv(run[..|run| - 1]);
      StepKeepsInv(After(run[..|run| - 1]), run[|run| - 1]);
    }
  }

  // ---------------------------------------------------------------------------
  // Main results
  // ---------------------------------------------------------------------------

  function Count(log: seq<Mark>, which: Mark -> bool): nat {
    if log == [] then 0 else Count(log[..|log| - 1], which) + if which(log[|log| - 1]) then 1 else 0
  }

  function Confirmations(log: seq<Mark>): nat {
    Count(log, (m: Mark) => m.Confirmed?)
  }

  function Attempts(log: seq<Mark>): nat {
    Count(log, (m: Mark) => m.Attempted?)
  }

  function Losses(log: seq<Mark>): nat {
    Count(log, (m: Mark) => m.Lost?)
  }

  lemma {:induction false} AttemptsBounded(log: seq<Mark>)
    requires Authorised(log)
    ensures Attempts(log) + (if log != [] && (log[|log| - 1].Confirmed? || log[|log| - 1].Lost?) then 1 else 0)
         <= Confirmations(log) + Losses(log)
    decreases |log|
  {
    if log != [] {
      var before := log[..|log| - 1];
      assert forall i :: 0 <= i < |before| ==> before[..i] == log[..i];
      AttemptsBounded(before);
    }
  }

  /** In every run each automatic StartTurn carries the prompt the user confirmed last, with no
      revocation, pause or other attempt since that confirmation unless a closing write was lost; without
      lost writes the attempts are at most the confirmations. */
  lemma {:induction false} OneAttemptPerConfirmation(run: seq<Action>)
    ensures Authorised(After(run).log)
    ensures Attempts(After(run).log) <= Confirmations(After(run).log) + Losses(After(run).log)
  {
    RunKeepsInv(run);
    AttemptsBounded(After(run).log);
  }

  /** In every run a queued entry carries the prompt the user confirmed last, and waits for the turn and
      revision of the snapshot it was confirmed against. */
  lemma {:induction false} QueuedAsConfirmed(run: seq<Action>)
    requires IsQueued(After(run).slot)
    ensures var s := After(run); var last := LastConfirmed(s.log);
            last.Some? && s.slot.value.prompt == last.value.0 && BoundTo(s.slot.value, last.value.1)
  {
    RunKeepsInv(run);
  }

  predicate AllWritten(run: seq<Action>) {
    forall i :: 0 <= i < |run| ==>
      (run[i].DoResume? ==> run[i].x.after == Access(true, true)) && (run[i].DoEvent? ==> run[i].x.after == Access(true, true))
  }

  lemma {:induction false} CountAppend(log: seq<Mark>, m: Mark, which: Mark -> bool)
    ensures Count(log + [m], which) == Count(log, which) + if which(m) then 1 else 0
  {
    assert (log + [m])[..|log|] == log;
  }

  /** With the closing writes succeeding nothing is lost. */
  lemma {:induction false} NothingLost(run: seq<Action>)
    requires AllWritten(run)
    ensures Losses(After(run).log) == 0
    decreases |run|
  {
    if run != [] {
      NothingLost(run[..|run| - 1]);
      StepLosesNothing(After(run[..|run| - 1]), run[|run| - 1]);
    }
  }

  lemma {:induction false} OneMark(log: seq<Mark>, m: Mark)
    ensures Losses(log + [m]) == Losses(log) + if m.Lost? then 1 else 0
  {
    CountAppend(log, m, (m: Mark) => m.Lost?);
  }

  lemma {:induction false} NoMark(log: seq<Mark>)
    ensures log + [] == log
  {
  }

  lemma {:induction false} StepLosesNothing(s: State, a: Action)
    requires AllWritten([a])
    ensures Losses(Step(s, a).log) == Losses(s.log)
  {
    assert [a][0] == a;
    NoMark(s.log);
    match a
    case DoSet(prompt, _, snapshot, _) => OneMark(s.log, Confirmed(prompt, snapshot));
    case DoPause(_) => OneMark(s.log, Revoked);
    case DoCancel(_) => OneMark(s.log, Revoked);
    case DoResume(snapshot, access, x) =>
      var (r, slot) := Confirm(s.slot, snapshot, access);
      if r.Ok? && r.value.Some? {
        OneMark(s.log, Confirmed(r.value.value.prompt, snapshot.value));
        AutomaticLosesNothing(State(slot, s.log + [Confirmed(r.value.value.prompt, snapshot.value)]), TurnEnded(TurnCompleted), x);
      }
    case DoEvent(event, x) => AutomaticLosesNothing(s, event, x);
  }

  /** An attempt whose closing write succeeds does not leave its entry queued. */
  lemma {:induction false} WrittenIsClosed(slot: Slot, event: TurnEvent, x: Encounter)
    requires x.after == Access(true, true)
    ensures var effect := OnEvent(slot, false, event, x); effect.attempt.Some? ==> !IsQueued(effect.slot)
  {
  }

  lemma {:induction false} AutomaticLosesNothing(s: State, event: TurnEvent, x: Encounter)
    requires x.after == Access(true, true)
    ensures Losses(Automatic(s, OnEvent(s.slot, false, event, x)).log) == Losses(s.log)
  {
    WrittenIsClosed(s.slot, event, x);
    MarksLoseNothing(s, OnEvent(s.slot, false, event, x));
  }

  lemma {:induction false} MarksLoseNothing(s: State, effect: Effect)
    requires effect.attempt.Some? ==> !IsQueued(effect.slot)
    ensures Losses(Automatic(s, effect).log) == Losses(s.log)
  {
    if effect.attempt.Some? {
      OneMark(s.log, Attempted(effect.attempt.value));
      assert Marks(s.slot, effect) == [Attempted(effect.attempt.value)];
    } else if IsQueued(s.slot) && !IsQueued(effect.slot) {
      OneMark(s.log, Revoked);
    } else {
      NoMark(s.log);
    }
  }

  /** With the closing writes succeeding, the attempts of any run are at most the user's confirmations. */
  lemma {:induction false} AttemptsWithinConfirmations(run: seq<Action>)
    requires AllWritten(run)
    ensures Attempts(After(run).log) <= Confirmations(After(run).log)
  {
    NothingLost(run);
    OneAttemptPerConfirmation(run);
  }

  /** Without them the bound fails: a completed attempt whose delete fails is made again. */
  lemma {:induction false} LostDeleteSendsTwice(prompt: string)
    ensures var idle := SessionSnapshot(None, 0, 0, 0);
            var x := Encounter(true, Ok(idle), None, [Completed], Access(true, false));
            var s1 := Step(START, DoSet(prompt, false, idle, Access(true, true)));
            var s2 := Step(s1, DoEvent(TurnEnded(TurnCompleted), x));
            Step(s2, DoEvent(TurnEnded(TurnCompleted), x)).log
              == [Confirmed(prompt, idle), Attempted(prompt), Lost, Attempted(prompt), Lost]
  {
    var idle := SessionSnapshot(None, 0, 0, 0);
    var x := Encounter(true, Ok(idle), None, [Completed], Access(true, false));
    var entry := EntryFrom(idle, prompt);
    assert Sent([Completed]);
    assert AutoSend(Some(entry), x) == Effect(Some(entry), Some(prompt));
  }
}
