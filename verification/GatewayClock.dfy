/** What the recorder's clock can do to a session: a clock that never runs backwards keeps every
    bundle acceptable; a terminal frame it makes the recorder refuse blocks finalization for good. */
module GatewayClock {
  import opened Common
  import opened GatewayFrames
  import opened GatewayRecording
  import opened GatewayInvariant
  import opened GatewayTheorems
  import GatewayVerifier

  // ----- a clock that never runs backwards -----

  function Readings(call: Call): seq<Time> {
    match call
    case PrepareCall(_, c) => [c.evaluatedAt, c.decisionAt, c.actionAt]
    case DispatchCall(_, at) => [at]
    case SucceedCall(_, _, c) => [c.terminalAt, c.observedAt]
    case FailCall(_, _, c) => [c.terminalAt, c.observedAt]
    case FinalizeCall(at) => [at]
  }

  predicate NonDecreasing(from: Time, times: seq<Time>)
    decreases |times|
  {
    times != [] ==> from <= times[0] && NonDecreasing(times[0], times[1..])
  }

  function LastReading(call: Call): Time {
    Readings(call)[|Readings(call)| - 1]
  }

  predicate MonotoneRun(now: Time, calls: seq<Call>)
    decreases |calls|
  {
    calls != [] ==>
      NonDecreasing(now, Readings(calls[0])) && MonotoneRun(LastReading(calls[0]), calls[1..])
  }

  ghost predicate PolicyFirst(log: seq<Frame>) {
    forall i, j :: 0 <= i < |log| && 0 <= j < |log| ==> !DispatchedEarly(log[i], log[j])
  }

  ghost predicate ObservedInOrder(log: seq<Frame>, now: Time) {
    && (forall i :: 1 <= i < |log| ==> log[i - 1].body.observedAt <= log[i].body.observedAt)
    && (log != [] ==> log[|log| - 1].body.observedAt <= now)
  }

  ghost predicate HandleOnTime(a: Handle, now: Time)
    requires a.decision.IsDecision()
  {
    && a.decision.body.detail.policy.body.evaluatedAt <= now
    && (a.dispatchedAt.Some? ==>
          a.decision.body.detail.policy.body.evaluatedAt <= a.dispatchedAt.value <= now)
  }

  ghost predicate LogOnTime(r: Recorder, now: Time) {
    && ObservedInOrder(r.log, now)
    && PolicyFirst(r.log)
    && (r.log != [] ==> r.manifest.createdAt <= r.log[0].body.observedAt)
    && r.manifest.createdAt <= now
  }

  ghost predicate FinalizedOnTime(r: Recorder) {
    r.manifest.finalizedAt.Some? && r.log != [] ==> r.log[|r.log| - 1].body.observedAt <= r.manifest.finalizedAt.value
  }

  ghost predicate OnTime(s: Session, now: Time)
    requires HandlesDecide(s)
  {
    && LogOnTime(s.recorder, now)
    && FinalizedOnTime(s.recorder)
    && (forall k :: 0 <= k < |s.handles| ==> HandleOnTime(s.handles[k], now))
  }

  lemma ObservedGrows(log: seq<Frame>, f: Frame, now: Time, at: Time)
    requires ObservedInOrder(log, now) && now <= at && f.body.observedAt == at
    ensures ObservedInOrder(log + [f], at)
  {
    var grown := log + [f];
    forall i | 1 <= i < |grown|
      ensures grown[i - 1].body.observedAt <= grown[i].body.observedAt
    {
      assert grown[i - 1] == log[i - 1];
    }
  }

  lemma PolicyFirstGrows(log: seq<Frame>, f: Frame)
    requires PolicyFirst(log)
    requires forall i :: 0 <= i < |log| ==> !DispatchedEarly(f, log[i]) && !DispatchedEarly(log[i], f)
    ensures PolicyFirst(log + [f])
  {
    hide DispatchedEarly;
    var grown := log + [f];
    assert !DispatchedEarly(f, f) by { NotOfItself(f); }
    forall i, j | 0 <= i < |grown| && 0 <= j < |grown|
      ensures !DispatchedEarly(grown[i], grown[j])
    {
      if i < |log| { assert grown[i] == log[i]; }
      if j < |log| { assert grown[j] == log[j]; }
    }
  }

  lemma NotOfItself(f: Frame)
    ensures !DispatchedEarly(f, f)
  {
  }

  lemma FrameOnTime(r: Recorder, r': Recorder, f: Frame, now: Time)
    requires LogOnTime(r, now) && r'.log == r.log + [f] && r'.manifest.createdAt == r.manifest.createdAt
    requires now <= f.body.observedAt
    requires forall i :: 0 <= i < |r.log| ==> !DispatchedEarly(f, r.log[i]) && !DispatchedEarly(r.log[i], f)
    ensures LogOnTime(r', f.body.observedAt)
  {
    ObservedGrows(r.log, f, now, f.body.observedAt);
    PolicyFirstGrows(r.log, f);
    hide ObservedInOrder, PolicyFirst, DispatchedEarly;
    assert r.log != [] ==> r'.log[0] == r.log[0];
  }

  lemma LaterIsOnTime(r: Recorder, now: Time, later: Time)
    requires LogOnTime(r, now) && now <= later
    ensures LogOnTime(r, later)
  {
  }

  lemma LoggedOccurrence(log: seq<Frame>, i: nat)
    requires i < |log|
    ensures log[i].IsDecision() ==> log[i].Occurrence() in DecisionOccurrences(log)
    ensures log[i].IsAction() ==> log[i].Occurrence() in ActionOccurrences(log)
  {
  }

  lemma AdmitOnTime(h: Hash, r: Recorder, a: Attempt, policy: Policy, clock: PrepareClock, now: Time)
    requires OccurrenceCollisionFree(h) && RecorderInv(h, r) && r.manifest.status == Recording && Unrecorded(r.log, a)
    requires |Admit(h, r, a, policy, clock).0.log| <= MAX_SAFE_INTEGER
    requires LogOnTime(r, now) && now <= clock.decisionAt <= clock.actionAt
    ensures LogOnTime(Admit(h, r, a, policy, clock).0, clock.actionAt)
    ensures Admit(h, r, a, policy, clock).0.manifest.finalizedAt == None
  {
    hide LogSound, Chained, FrameIssues, Unrecorded, Clean, LogOnTime;
    var f := NextFrame(h, r, clock.decisionAt, a, Decision(policy));
    EmitAppends(h, r, clock.decisionAt, a, Decision(policy));
    CleanMeansNoIssues(h, f);
    hide Emit;
    LaterIsOnTime(r, now, clock.actionAt);
    if Clean(h, f) {
      DecisionAdmission(h, r, a, policy, clock.decisionAt);
      var r2 := Remember(Emit(h, r, clock.decisionAt, a, Decision(policy)).0, a, f.Occurrence());
      forall i | 0 <= i < |r.log|
        ensures !DispatchedEarly(f, r.log[i]) && !DispatchedEarly(r.log[i], f)
      {
        LoggedOccurrence(r.log, i);
      }
      hide DecisionOccurrences, ActionOccurrences, DispatchedEarly, CountersAgree;
      FrameOnTime(r, r2, f, now);
      LaterIsOnTime(r2, clock.decisionAt, clock.actionAt);
      assert r2.log[|r.log|] == f;
      if policy.body.verdict == Blocked {
        BlockedAdmission(h, r2, f, clock.actionAt);
        var (r3, acted) := Emit(h, r2, clock.actionAt, a, CensorDetail(policy));
        forall i | 0 <= i < |r2.log|
          ensures !DispatchedEarly(acted.value, r2.log[i]) && !DispatchedEarly(r2.log[i], acted.value)
        {
          CensoredNeverEarly(acted.value, r2.log[i]);
        }
        FrameOnTime(r2, r3, acted.value, clock.decisionAt);
        LogOnTimeDependsOnLog(r3, CountAttempt(r3), clock.actionAt);
      } else {
        LogOnTimeDependsOnLog(r2, r2.(openAttempts := r2.openAttempts + 1), clock.actionAt);
      }
    }
  }

  lemma CensoredNeverEarly(action: Frame, f: Frame)
    requires action.IsAction() && action.body.detail.terminal.dispatchStartedAt.None?
    ensures !DispatchedEarly(action, f) && !DispatchedEarly(f, action)
  {
  }

  lemma LogOnTimeDependsOnLog(r: Recorder, r': Recorder, now: Time)
    requires LogOnTime(r, now) && r'.log == r.log && r'.manifest.createdAt == r.manifest.createdAt
    ensures LogOnTime(r', now)
  {
    hide ObservedInOrder, PolicyFirst;
  }

  lemma FinishOnTime(h: Hash, r: Recorder, a: Handle, t: Terminal, clock: CloseClock, now: Time)
    requires RecorderInv(h, r) && a.decision.IsDecision() && a.decision in r.log && OpenHandle(r, a)
    requires !Censored(t.outcome) && t.dispatchStartedAt == a.dispatchedAt
    requires LogOnTime(r, now) && HandleOnTime(a, now) && now <= clock.observedAt
    ensures LogOnTime(Finish(h, r, a, t, clock).0, clock.observedAt)
    ensures Finish(h, r, a, t, clock).0.manifest.finalizedAt == r.manifest.finalizedAt
  {
    hide LogSound, FrameIssues, LogOnTime, Clean, Chained, AccountsAgree, ActionOccurrences;
    var detail := Action(a.decision.body.detail.policy.receiptSha, t);
    var f := NextFrame(h, r, clock.observedAt, a.decision.body.attempt, detail);
    EmitAppends(h, r, clock.observedAt, a.decision.body.attempt, detail);
    CleanMeansNoIssues(h, f);
    LaterIsOnTime(r, now, clock.observedAt);
    hide Emit;
    if Clean(h, f) {
      forall i | 0 <= i < |r.log|
        ensures !DispatchedEarly(f, r.log[i]) && !DispatchedEarly(r.log[i], f)
      {
        AnswerNotEarly(h, r, a, f, i, now);
      }
      hide DispatchedEarly, CountersAgree, HandleOnTime, OpenHandle;
      var r1 := Emit(h, r, clock.observedAt, a.decision.body.attempt, detail).0;
      FrameOnTime(r, r1, f, now);
      LogOnTimeDependsOnLog(r1, CountAttempt(r1.(openAttempts := r1.openAttempts - 1)), clock.observedAt);
    }
  }

  lemma AnswerNotEarly(h: Hash, r: Recorder, a: Handle, f: Frame, i: nat, now: Time)
    requires RecorderInv(h, r) && a.decision.IsDecision() && a.decision in r.log && HandleOnTime(a, now)
    requires f.IsAction() && f.body.detail.terminal.dispatchStartedAt == a.dispatchedAt
    requires f.Occurrence() == OccurrenceSha(h, a.decision.body.attempt) && i < |r.log|
    ensures !DispatchedEarly(f, r.log[i]) && !DispatchedEarly(r.log[i], f)
  {
    hide LogSound, AccountsAgree, Clean;
    var d :| 0 <= d < |r.log| && r.log[d] == a.decision;
    ChainedOccurrence(h, r.manifest.session, r.log, d);
    hide Chained;
    if DispatchedEarly(r.log[i], f) {
      SameDecision(r, i, d);
    }
  }

  lemma SameDecision(r: Recorder, i: nat, d: nat)
    requires LogSound(r) && i < |r.log| && d < |r.log|
    requires r.log[i].IsDecision() && r.log[d].IsDecision() && r.log[i].Occurrence() == r.log[d].Occurrence()
    ensures i == d
  {
    hide Answered, Lineage, LogicalMatches;
  }

  lemma PrepareOnTime(h: Hash, r: Recorder, input: PrepareInput, clock: PrepareClock, now: Time)
    requires OccurrenceCollisionFree(h) && RecorderInv(h, r)
    requires |Prepare(h, r, input, clock).0.log| <= MAX_SAFE_INTEGER
    requires LogOnTime(r, now) && FinalizedOnTime(r)
    requires now <= clock.evaluatedAt <= clock.decisionAt <= clock.actionAt
    ensures var (r', out) := Prepare(h, r, input, clock);
            && LogOnTime(r', clock.actionAt) && FinalizedOnTime(r')
            && (out.Ok? ==> out.value.decision.IsDecision() && HandleOnTime(out.value, clock.actionAt))
  {
    hide Prepare, Admit, CountersAgree, LogOnTime, AccountsAgree, LogSound, Unrecorded;
    LaterIsOnTime(r, now, clock.actionAt);
    PrepareSplits(h, r, input, clock);
    if PrepareAccepted(h, r, input) {
      var a, policy := AdmittedAttempt(h, input), AdmittedPolicy(h, input, clock);
      AcceptedLineage(r, input, ContentReference(h, input.body, input.mediaType).value);
      hide PrepareAccepted, AdmittedAttempt, AdmittedPolicy;
      AdmitKeeps(h, r, a, policy, clock);
      AdmitOnTime(h, r, a, policy, clock, now);
      if Admit(h, r, a, policy, clock).1.Ok? {
        UndispatchedHandle(h, r, a, policy, clock);
      }
    }
  }

  lemma UndispatchedHandle(h: Hash, r: Recorder, a: Attempt, policy: Policy, clock: PrepareClock)
    requires Admit(h, r, a, policy, clock).1.Ok?
    ensures Admit(h, r, a, policy, clock).1.value.dispatchedAt.None?
  {
    hide Emit;
  }

  lemma NothingOpenOnceFinalized(h: Hash, r: Recorder, a: Handle)
    requires RecorderInv(h, r) && a.decision.IsDecision() && a.decision in r.log && OpenHandle(r, a)
    ensures r.manifest.status == Recording
  {
    hide CountersAgree, LogSound;
    var d :| 0 <= d < |r.log| && r.log[d] == a.decision;
    LoggedOccurrence(r.log, d);
    if r.manifest.status == Finalized {
      EqualWhenSubsetAndAsLarge(ActionOccurrences(r.log), DecisionOccurrences(r.log));
    }
  }

  lemma CloseOnTime(h: Hash, s: Session, k: nat, t: Terminal, clock: CloseClock, now: Time)
    requires SessionInv(h, s) && k < |s.handles| && !s.handles[k].closed
    requires !Censored(t.outcome) && t.dispatchStartedAt == s.handles[k].dispatchedAt
    requires OnTime(s, now) && now <= clock.terminalAt <= clock.observedAt
    ensures var (r', a', _) := Finish(h, s.recorder, s.handles[k], t, clock);
            a'.decision == s.handles[k].decision && OnTime(Session(r', s.handles[k := a']), clock.observedAt)
  {
    hide CountersAgree, LogSound, LogOnTime, OpenHandle, AccountsAgree;
    FinishOnTime(h, s.recorder, s.handles[k], t, clock, now);
    NothingOpenOnceFinalized(h, s.recorder, s.handles[k]);
    RecordingHasNoEnd(h, s.recorder);
    var (r', a', out) := Finish(h, s.recorder, s.handles[k], t, clock);
    assert a' == s.handles[k].(closed := true);
    hide Finish, RecorderInv;
  }

  lemma RecordingHasNoEnd(h: Hash, r: Recorder)
    requires RecorderInv(h, r) && r.manifest.status == Recording
    ensures r.manifest.finalizedAt.None?
  {
    hide CountersAgree, LogSound;
  }

  lemma HandlesLater(s: Session, now: Time, later: Time)
    requires HandlesDecide(s) && OnTime(s, now) && now <= later
    ensures OnTime(s, later)
  {
    hide FinalizedOnTime, LogOnTime;
    LaterIsOnTime(s.recorder, now, later);
  }

  lemma CallOnTime(h: Hash, s: Session, call: Call, now: Time)
    requires OccurrenceCollisionFree(h) && SessionInv(h, s) && |Do(h, s, call).recorder.log| <= MAX_SAFE_INTEGER
    requires HandlesDecide(Do(h, s, call))
    requires OnTime(s, now) && NonDecreasing(now, Readings(call))
    ensures OnTime(Do(h, s, call), LastReading(call))
  {
    hide RecorderInv, Prepare, Succeed, Fail, Finish, OpenHandle, LogOnTime, FinalizedOnTime;
    ReadingsSorted(now, call);
    HandlesLater(s, now, LastReading(call));
    hide NonDecreasing;
    match call
    case PrepareCall(input, clock) =>
      PrepareOnTime(h, s.recorder, input, clock, now);
    case DispatchCall(k, at) =>
    case SucceedCall(k, input, clock) =>
      if k < |s.handles| {
        SucceedOnTime(h, s, k, input, clock, now);
      }
    case FailCall(k, input, clock) =>
      if k < |s.handles| {
        FailOnTime(h, s, k, input, clock, now);
      }
    case FinalizeCall(at) => FinalizeOnTime(s.recorder, at, now);
  }

  lemma SucceedOnTime(h: Hash, s: Session, k: nat, input: SuccessInput, clock: CloseClock, now: Time)
    requires SessionInv(h, s) && k < |s.handles|
    requires OnTime(s, now) && now <= clock.terminalAt <= clock.observedAt
    ensures var (r', a', _) := Succeed(h, s.recorder, s.handles[k], input, clock);
            a'.decision == s.handles[k].decision && OnTime(Session(r', s.handles[k := a']), clock.observedAt)
  {
    hide RecorderInv, Succeed, Finish, ContentReference, OpenHandle, OnTime, SuccessTerminal;
    var a := s.handles[k];
    HandlesLater(s, now, clock.observedAt);
    SucceedSplits(h, s.recorder, a, input, clock);
    var ref := ContentReference(h, input.body, input.mediaType);
    if SuccessRefusal(a, input).None? && ref.Ok? {
      CloseOnTime(h, s, k, SuccessTerminal(a, input, ref.value, clock), clock, now);
    }
    assert s.handles[k := a] == s.handles;
  }

  lemma FailOnTime(h: Hash, s: Session, k: nat, input: FailureInput, clock: CloseClock, now: Time)
    requires SessionInv(h, s) && k < |s.handles|
    requires OnTime(s, now) && now <= clock.terminalAt <= clock.observedAt
    ensures var (r', a', _) := Fail(h, s.recorder, s.handles[k], input, clock);
            a'.decision == s.handles[k].decision && OnTime(Session(r', s.handles[k := a']), clock.observedAt)
  {
    hide RecorderInv, Fail, Finish, FailureResponse, OpenHandle, OnTime, FailureTerminal;
    var a := s.handles[k];
    HandlesLater(s, now, clock.observedAt);
    FailSplits(h, s.recorder, a, input, clock);
    var ref := FailureResponse(h, input);
    if FailureRefusal(a, input).None? && ref.Ok? {
      CloseOnTime(h, s, k, FailureTerminal(a, input, ref.value, clock), clock, now);
    }
    assert s.handles[k := a] == s.handles;
  }

  lemma FinalizeOnTime(r: Recorder, at: Time, now: Time)
    requires LogOnTime(r, now) && FinalizedOnTime(r) && now <= at
    ensures LogOnTime(Finalize(r, at).0, at) && FinalizedOnTime(Finalize(r, at).0)
  {
    LaterIsOnTime(r, now, at);
    LogOnTimeDependsOnLog(r, Finalize(r, at).0, at);
  }

  lemma ReadingsSorted(now: Time, call: Call)
    requires NonDecreasing(now, Readings(call))
    ensures match call
            case PrepareCall(_, c) => now <= c.evaluatedAt <= c.decisionAt <= c.actionAt
            case DispatchCall(_, at) => now <= at
            case SucceedCall(_, _, c) => now <= c.terminalAt <= c.observedAt
            case FailCall(_, _, c) => now <= c.terminalAt <= c.observedAt
            case FinalizeCall(at) => now <= at
    ensures now <= LastReading(call)
  {
    var times := Readings(call);
    assert NonDecreasing(times[0], times[1..]);
    if |times| > 1 {
      assert times[1..][0] == times[1];
      assert NonDecreasing(times[1], times[1..][1..]);
      if |times| > 2 {
        assert times[1..][1..][0] == times[2];
      }
    }
  }

  function FinalReading(now: Time, calls: seq<Call>): Time
    decreases |calls|
  {
    if calls == [] then now else FinalReading(LastReading(calls[0]), calls[1..])
  }

  lemma {:induction false} RunOnTime(h: Hash, s: Session, calls: seq<Call>, now: Time)
    requires OccurrenceCollisionFree(h) && SessionInv(h, s) && |Play(h, s, calls).recorder.log| <= MAX_SAFE_INTEGER
    requires OnTime(s, now) && MonotoneRun(now, calls)
    ensures OnTime(Play(h, s, calls), FinalReading(now, calls))
    decreases |calls|
  {
    hide RecorderInv, Do, OpenHandle, LogOnTime, FinalizedOnTime;
    if calls != [] {
      DoKeepsDecisions(h, s, calls[0]);
      LogGrowsOverRun(h, Do(h, s, calls[0]), calls[1..]);
      CallKeeps(h, s, calls[0]);
      CallOnTime(h, s, calls[0], now);
      RunOnTime(h, Do(h, s, calls[0]), calls[1..], LastReading(calls[0]));
    }
  }

  /** With a clock that never runs backwards, whatever the interleaving, a finalized session is
      blocked for its identity mismatches and for nothing else. */
  lemma MonotoneClockSuffices(h: Hash, session: string, createdAt: Time, calls: seq<Call>)
    requires OccurrenceCollisionFree(h) && StableId(session) && MonotoneRun(createdAt, calls)
    requires Play(h, Start(session, createdAt), calls).recorder.manifest.status == Finalized
    requires |Play(h, Start(session, createdAt), calls).recorder.log| <= MAX_SAFE_INTEGER
    ensures var r := Play(h, Start(session, createdAt), calls).recorder;
            forall b :: GatewayVerifier.Blocks(h, r.manifest, r.log, b) <==> RecordsMismatch(r.log, b)
  {
    StartInv(h, session, createdAt);
    RunOnTime(h, Start(session, createdAt), calls, createdAt);
    GatewayCompleteness(h, session, createdAt, calls);
  }
}
