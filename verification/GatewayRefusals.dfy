/** Terminal frames the recorder refuses: exactly when that happens to a well-formed call, and
    why one refusal blocks finalization in every continuation of the session. */
module GatewayRefusals {
  import opened Common
  import opened GatewayFrames
  import opened GatewayRecording
  import opened GatewayInvariant

  /** The readings taken at dispatch, at the reply and at the append are in order, and every number
      that the frame carries is a safe integer. */
  predicate TerminalFits(r: Recorder, a: Handle, responseLength: nat, clock: CloseClock) {
    && a.dispatchedAt.Some?
    && a.dispatchedAt.value <= clock.terminalAt <= clock.observedAt
    && |r.log| <= MAX_SAFE_INTEGER
    && clock.latencyMs <= MAX_SAFE_INTEGER
    && responseLength <= MAX_SAFE_INTEGER
  }

  /** Only the sequence number and the terminal fields of a closing frame can be at fault. */
  lemma ClosingFrameClean(h: Hash, r: Recorder, decision: Frame, t: Terminal, at: Time)
    requires CountersAgree(h, r) && decision.IsDecision() && Clean(h, decision)
    requires decision.body.session == r.manifest.session
    ensures var f := NextFrame(h, r, at, decision.body.attempt, Action(decision.body.detail.policy.receiptSha, t));
            Clean(h, f) <==> |r.log| <= MAX_SAFE_INTEGER && forall issue :: !ActionRaises(issue, f.body, t)
  {
    hide Chained, ActionRaises, PolicyRaises, KnownProvider, StableId, ModelPin, ContentOk;
    var f := NextFrame(h, r, at, decision.body.attempt, Action(decision.body.detail.policy.receiptSha, t));
    forall issue
      ensures CommonRaises(h, issue, f) <==> issue == SequenceInvalid && |r.log| > MAX_SAFE_INTEGER
    {
      assert !Raises(h, issue, decision);
    }
    hide CommonRaises;
    if Clean(h, f) {
      assert !Raises(h, SequenceInvalid, f);
      forall issue
        ensures !ActionRaises(issue, f.body, t)
      {
        assert !Raises(h, issue, f);
      }
    }
  }

  lemma FinishOutcome(h: Hash, r: Recorder, a: Handle, t: Terminal, clock: CloseClock)
    requires RecorderInv(h, r) && a.decision.IsDecision() && a.decision in r.log && OpenHandle(r, a)
    ensures var f := NextFrame(h, r, clock.observedAt, a.decision.body.attempt,
                               Action(a.decision.body.detail.policy.receiptSha, t));
            Finish(h, r, a, t, clock).2.Ok? <==>
              |r.log| <= MAX_SAFE_INTEGER && forall issue :: !ActionRaises(issue, f.body, t)
  {
    hide LogSound, FrameIssues, ActionRaises, Raises, Clean;
    var detail := Action(a.decision.body.detail.policy.receiptSha, t);
    var f := NextFrame(h, r, clock.observedAt, a.decision.body.attempt, detail);
    var d :| 0 <= d < |r.log| && r.log[d] == a.decision;
    ChainedOccurrence(h, r.manifest.session, r.log, d);
    assert a.decision.body.session == r.manifest.session;
    EmitAppends(h, r, clock.observedAt, a.decision.body.attempt, detail);
    CleanMeansNoIssues(h, f);
    hide Emit, Chained;
    ClosingFrameClean(h, r, a.decision, t, clock.observedAt);
    assert a.decision.Occurrence() in DecisionOccurrences(r.log);
    ProperSubsetIsSmaller(ActionOccurrences(r.log), DecisionOccurrences(r.log));
  }

  /** A success whose inputs are valid is refused exactly when its terminal does not fit. */
  lemma SuccessRecordedExactlyWhen(h: Hash, r: Recorder, a: Handle, input: SuccessInput, clock: CloseClock)
    requires RecorderInv(h, r) && a.decision.IsDecision() && a.decision in r.log && OpenHandle(r, a)
    requires SuccessRefusal(a, input).None? && ContentReference(h, input.body, input.mediaType).Ok?
    ensures var (r', a', out) := Succeed(h, r, a, input, clock);
            && a'.closed
            && if TerminalFits(r, a, |input.body|, clock)
               then |r'.log| == |r.log| + 1
                    && (out.Ok? <==> input.resolvedModel == a.decision.body.attempt.requestedModel)
                    && (out.Err? ==> out.error.IdentityMismatchRecorded?)
               else r' == r && out.Err? && out.error.FrameRefused?
  {
    var response := ContentReference(h, input.body, input.mediaType).value;
    var t := SuccessTerminal(a, input, response, clock);
    SucceedSplits(h, r, a, input, clock);
    FinishOutcome(h, r, a, t, clock);
    FinishShape(h, r, a, t, clock);
    hide RecorderInv, Finish, OpenHandle, StableId;
    var f := NextFrame(h, r, clock.observedAt, a.decision.body.attempt, Action(a.decision.body.detail.policy.receiptSha, t));
    SuccessTerminalRaises(a, input, response, clock, f);
  }

  lemma FinishShape(h: Hash, r: Recorder, a: Handle, t: Terminal, clock: CloseClock)
    requires RecorderInv(h, r) && a.decision.IsDecision() && a.decision in r.log && OpenHandle(r, a)
    ensures var (r', a', out) := Finish(h, r, a, t, clock);
            && a' == a.(closed := true)
            && if out.Ok? then |r'.log| == |r.log| + 1 else r' == r && out.error.FrameRefused?
  {
    hide LogSound, FrameIssues, Chained;
    EmitAppends(h, r, clock.observedAt, a.decision.body.attempt, Action(a.decision.body.detail.policy.receiptSha, t));
    CleanMeansNoIssues(h, NextFrame(h, r, clock.observedAt, a.decision.body.attempt,
                                    Action(a.decision.body.detail.policy.receiptSha, t)));
    hide Emit, Clean;
    var d :| 0 <= d < |r.log| && r.log[d] == a.decision;
    assert a.decision.Occurrence() in DecisionOccurrences(r.log);
    ProperSubsetIsSmaller(ActionOccurrences(r.log), DecisionOccurrences(r.log));
  }

  lemma MismatchCodeIsStable()
    ensures StableId("resolved_model_identity_mismatch")
  {
  }

  lemma SuccessTerminalRaises(a: Handle, input: SuccessInput, response: ContentRef, clock: CloseClock, f: Frame)
    requires SuccessRefusal(a, input).None?
    requires PrintableMediaType(response.mediaType) && response.byteLength == |input.body| && response.digestOnly
    requires f.body.attempt == a.decision.body.attempt && f.body.observedAt == clock.observedAt
    ensures (forall issue :: !ActionRaises(issue, f.body, SuccessTerminal(a, input, response, clock))) <==>
              && a.dispatchedAt.value <= clock.terminalAt <= clock.observedAt
              && clock.latencyMs <= MAX_SAFE_INTEGER && |input.body| <= MAX_SAFE_INTEGER
  {
    hide ModelPin, UsageOk, PrintableMediaType, StableId;
    var t := SuccessTerminal(a, input, response, clock);
    MismatchCodeIsStable();
    if forall issue :: !ActionRaises(issue, f.body, t) {
      assert !ActionRaises(ResponseInvalid, f.body, t);
      assert !ActionRaises(DispatchTimingMissing, f.body, t);
      assert !ActionRaises(DispatchTimingInvalid, f.body, t);
    }
  }

  function ResponseLength(input: FailureInput): nat {
    if input.body.None? || input.mediaType.None? then 0 else |input.body.value|
  }

  /** The same for a failure. */
  lemma FailureRecordedExactlyWhen(h: Hash, r: Recorder, a: Handle, input: FailureInput, clock: CloseClock)
    requires RecorderInv(h, r) && a.decision.IsDecision() && a.decision in r.log && OpenHandle(r, a)
    requires FailureRefusal(a, input).None? && FailureResponse(h, input).Ok?
    ensures var (r', a', out) := Fail(h, r, a, input, clock);
            && a'.closed
            && if TerminalFits(r, a, ResponseLength(input), clock)
               then |r'.log| == |r.log| + 1 && out.Ok?
               else r' == r && out.Err? && out.error.FrameRefused?
  {
    var response := FailureResponse(h, input).value;
    var t := FailureTerminal(a, input, response, clock);
    FailSplits(h, r, a, input, clock);
    FinishOutcome(h, r, a, t, clock);
    FinishShape(h, r, a, t, clock);
    hide RecorderInv, Finish, OpenHandle, StableId;
    var f := NextFrame(h, r, clock.observedAt, a.decision.body.attempt, Action(a.decision.body.detail.policy.receiptSha, t));
    FailureTerminalRaises(h, a, input, clock, f);
  }

  lemma FailureTerminalRaises(h: Hash, a: Handle, input: FailureInput, clock: CloseClock, f: Frame)
    requires FailureRefusal(a, input).None? && FailureResponse(h, input).Ok?
    requires f.body.attempt == a.decision.body.attempt && f.body.observedAt == clock.observedAt
    ensures (forall issue :: !ActionRaises(issue, f.body, FailureTerminal(a, input, FailureResponse(h, input).value, clock)))
            <==>
              && a.dispatchedAt.value <= clock.terminalAt <= clock.observedAt
              && clock.latencyMs <= MAX_SAFE_INTEGER && ResponseLength(input) <= MAX_SAFE_INTEGER
  {
    hide ModelPin, UsageOk, StableId, PrintableMediaType;
    var t := FailureTerminal(a, input, FailureResponse(h, input).value, clock);
    if forall issue :: !ActionRaises(issue, f.body, t) {
      assert !ActionRaises(ResponseInvalid, f.body, t);
      assert !ActionRaises(DispatchTimingMissing, f.body, t);
      assert !ActionRaises(DispatchTimingInvalid, f.body, t);
    }
  }

  // ----- decisions the recorder refuses -----

  /** The readings of a prepare are in order, and every number its frames carry is a safe integer. */
  predicate PrepareFits(r: Recorder, input: PrepareInput, clock: PrepareClock) {
    && clock.evaluatedAt <= clock.decisionAt
    && |input.body| <= MAX_SAFE_INTEGER
    && |r.log| <= MAX_SAFE_INTEGER
  }

  lemma DecisionFrameClean(h: Hash, r: Recorder, input: PrepareInput, clock: PrepareClock)
    requires CountersAgree(h, r) && PrepareRefusal(input).None? && ContentReference(h, input.body, input.mediaType).Ok?
    ensures var ref := ContentReference(h, input.body, input.mediaType).value;
            Clean(h, NextFrame(h, r, clock.decisionAt, AttemptFor(input, ref), Decision(PolicyFor(h, input, ref, clock.evaluatedAt))))
            <==> PrepareFits(r, input, clock)
  {
    hide StableId, KnownProvider, ModelPin, ReasonCodesOk, Chained, PrintableMediaType;
    var ref := ContentReference(h, input.body, input.mediaType).value;
    var f := NextFrame(h, r, clock.decisionAt, AttemptFor(input, ref), Decision(PolicyFor(h, input, ref, clock.evaluatedAt)));
    if Clean(h, f) {
      assert !Raises(h, SequenceInvalid, f) && !Raises(h, RequestInvalid, f) && !Raises(h, PolicyTimingInvalid, f);
    }
  }

  lemma CensoredFrameClean(h: Hash, r: Recorder, input: PrepareInput, clock: PrepareClock)
    requires CountersAgree(h, r) && PrepareRefusal(input).None? && ContentReference(h, input.body, input.mediaType).Ok?
    requires |input.body| <= MAX_SAFE_INTEGER
    ensures var ref := ContentReference(h, input.body, input.mediaType).value;
            var policy := PolicyFor(h, input, ref, clock.evaluatedAt);
            Clean(h, NextFrame(h, r, clock.actionAt, AttemptFor(input, ref), Action(policy.receiptSha, CensoredTerminal(policy.body))))
            <==> |r.log| <= MAX_SAFE_INTEGER
  {
    FirstReasonIsStable(input.reasonCodes);
    hide StableId, KnownProvider, ModelPin, ReasonCodesOk, Chained, PrintableMediaType;
    var ref := ContentReference(h, input.body, input.mediaType).value;
    var policy := PolicyFor(h, input, ref, clock.evaluatedAt);
    var f := NextFrame(h, r, clock.actionAt, AttemptFor(input, ref), Action(policy.receiptSha, CensoredTerminal(policy.body)));
    if Clean(h, f) {
      assert !Raises(h, SequenceInvalid, f);
    }
  }

  lemma FirstReasonIsStable(codes: seq<string>)
    ensures ReasonCodesOk(codes) ==> codes != [] && StableId(codes[0])
  {
    hide StableId;
  }

  /** A prepare whose inputs and lineage pass is recorded exactly when its readings and numbers fit, a
      blocked one with its censored action besides. */
  lemma PrepareRecordedExactlyWhen(h: Hash, r: Recorder, input: PrepareInput, clock: PrepareClock)
    requires CountersAgree(h, r) && PrepareAccepted(h, r, input)
    ensures var (r', out) := Prepare(h, r, input, clock);
            var blocked := input.verdict == Blocked;
            && (out.Ok? <==> PrepareFits(r, input, clock) && (blocked ==> |r.log| < MAX_SAFE_INTEGER))
            && (out.Ok? ==> |r'.log| == |r.log| + (if blocked then 2 else 1))
            && (!PrepareFits(r, input, clock) ==> r' == r)
  {
    hide StableId, Chained, Clean, FrameIssues;
    DecisionFrameClean(h, r, input, clock);
    var ref := ContentReference(h, input.body, input.mediaType).value;
    var (a, policy) := (AttemptFor(input, ref), PolicyFor(h, input, ref, clock.evaluatedAt));
    EmitAppends(h, r, clock.decisionAt, a, Decision(policy));
    var (r1, decided) := Emit(h, r, clock.decisionAt, a, Decision(policy));
    hide Emit, LineageRefusal, PrepareRefusal;
    if decided.Ok? {
      var r2 := Remember(r1, a, decided.value.body.occurrence);
      CensoredFrameClean(h, r2, input, clock);
      EmitAppends(h, r2, clock.actionAt, a, Action(policy.receiptSha, CensoredTerminal(policy.body)));
    }
  }

  // ----- a refusal is for ever -----

  /** Attempt k was closed but never got its action. */
  ghost predicate Stuck(s: Session, k: nat) {
    && k < |s.handles| && s.handles[k].closed && s.handles[k].decision.IsDecision()
    && s.handles[k].decision in s.recorder.log
    && s.handles[k].decision.Occurrence() !in ActionOccurrences(s.recorder.log)
  }

  lemma StuckIsNotFinal(h: Hash, s: Session, k: nat)
    requires SessionInv(h, s) && Stuck(s, k)
    ensures s.recorder.manifest.status == Recording && s.recorder.openAttempts > 0
  {
    hide CountersAgree, LogSound, OpenHandle;
    var r := s.recorder;
    var d :| 0 <= d < |r.log| && r.log[d] == s.handles[k].decision;
    assert s.handles[k].decision.Occurrence() in DecisionOccurrences(r.log);
    ProperSubsetIsSmaller(ActionOccurrences(r.log), DecisionOccurrences(r.log));
  }

  lemma CloseKeepsStuck(h: Hash, s: Session, j: nat, t: Terminal, clock: CloseClock, k: nat)
    requires SessionInv(h, s) && Stuck(s, k) && j < |s.handles| && !s.handles[j].closed && !Censored(t.outcome)
    ensures var (r', a', _) := Finish(h, s.recorder, s.handles[j], t, clock);
            Stuck(Session(r', s.handles[j := a']), k)
  {
    hide RecorderInv, Finish, ActionOccurrences;
    FinishKeeps(h, s.recorder, s.handles[j], t, clock);
    var r' := Finish(h, s.recorder, s.handles[j], t, clock).0;
    InGrownLog(s.recorder.log, r'.log, s.handles[k].decision);
    assert j != k;
    assert s.handles[j].decision.Occurrence() != s.handles[k].decision.Occurrence();
  }

  lemma PrepareKeepsStuck(h: Hash, s: Session, input: PrepareInput, clock: PrepareClock, k: nat)
    requires OccurrenceCollisionFree(h) && SessionInv(h, s) && Stuck(s, k)
    requires |Prepare(h, s.recorder, input, clock).0.log| <= MAX_SAFE_INTEGER
    ensures var (r', out) := Prepare(h, s.recorder, input, clock);
            && s.handles[k].decision in r'.log
            && s.handles[k].decision.Occurrence() !in ActionOccurrences(r'.log)
  {
    hide Prepare, Admit, CountersAgree, LogSound, AccountsAgree, Unrecorded, OpenHandle, ActionOccurrences;
    var r := s.recorder;
    PrepareSplits(h, r, input, clock);
    if PrepareAccepted(h, r, input) {
      var a, policy := AdmittedAttempt(h, input), AdmittedPolicy(h, input, clock);
      AcceptedLineage(r, input, ContentReference(h, input.body, input.mediaType).value);
      hide PrepareAccepted, AdmittedAttempt, AdmittedPolicy;
      AdmitKeeps(h, r, a, policy, clock);
      var d :| 0 <= d < |r.log| && r.log[d] == s.handles[k].decision;
      assert s.handles[k].decision.Occurrence() in DecisionOccurrences(r.log);
      InGrownLog(r.log, Admit(h, r, a, policy, clock).0.log, s.handles[k].decision);
    }
  }

  lemma CallKeepsStuck(h: Hash, s: Session, call: Call, k: nat)
    requires OccurrenceCollisionFree(h) && SessionInv(h, s) && Stuck(s, k)
    requires |Do(h, s, call).recorder.log| <= MAX_SAFE_INTEGER
    ensures Stuck(Do(h, s, call), k)
  {
    hide RecorderInv, Prepare, Succeed, Fail, Finish, ActionOccurrences, ContentReference, FailureResponse, OpenHandle;
    match call
    case PrepareCall(input, clock) => PrepareKeepsStuck(h, s, input, clock, k);
    case DispatchCall(j, at) =>
    case SucceedCall(j, input, clock) =>
      if j < |s.handles| {
        SucceedSplits(h, s.recorder, s.handles[j], input, clock);
        var ref := ContentReference(h, input.body, input.mediaType);
        if SuccessRefusal(s.handles[j], input).None? && ref.Ok? {
          CloseKeepsStuck(h, s, j, SuccessTerminal(s.handles[j], input, ref.value, clock), clock, k);
        }
      }
    case FailCall(j, input, clock) =>
      if j < |s.handles| {
        FailSplits(h, s.recorder, s.handles[j], input, clock);
        var ref := FailureResponse(h, input);
        if FailureRefusal(s.handles[j], input).None? && ref.Ok? {
          CloseKeepsStuck(h, s, j, FailureTerminal(s.handles[j], input, ref.value, clock), clock, k);
        }
      }
    case FinalizeCall(at) =>
  }

  /** A valid success or failure that does not fit leaves its attempt stuck. */
  lemma RefusalSticks(h: Hash, s: Session, call: Call)
    requires SessionInv(h, s) && (call.SucceedCall? || call.FailCall?)
    requires call.handle < |s.handles| && !s.handles[call.handle].closed
    requires call.SucceedCall? ==>
               && SuccessRefusal(s.handles[call.handle], call.success).None?
               && ContentReference(h, call.success.body, call.success.mediaType).Ok?
               && !TerminalFits(s.recorder, s.handles[call.handle], |call.success.body|, call.closeClock)
    requires call.FailCall? ==>
               && FailureRefusal(s.handles[call.handle], call.failure).None?
               && FailureResponse(h, call.failure).Ok?
               && !TerminalFits(s.recorder, s.handles[call.handle], ResponseLength(call.failure), call.closeClock)
    ensures Stuck(Do(h, s, call), call.handle)
  {
    hide RecorderInv, Succeed, Fail, ContentReference, FailureResponse, SuccessRefusal, FailureRefusal, TerminalFits;
    var a := s.handles[call.handle];
    if call.SucceedCall? {
      SuccessRecordedExactlyWhen(h, s.recorder, a, call.success, call.closeClock);
      SucceedSplits(h, s.recorder, a, call.success, call.closeClock);
    } else {
      FailureRecordedExactlyWhen(h, s.recorder, a, call.failure, call.closeClock);
      FailSplits(h, s.recorder, a, call.failure, call.closeClock);
    }
    hide ActionOccurrences;
  }

  /** Once a terminal frame was refused, no continuation of the session ever finalizes. */
  lemma {:induction false} RefusalBlocksFinalize(h: Hash, s: Session, k: nat, calls: seq<Call>)
    requires OccurrenceCollisionFree(h) && SessionInv(h, s) && Stuck(s, k)
    requires |Play(h, s, calls).recorder.log| <= MAX_SAFE_INTEGER
    ensures Play(h, s, calls).recorder.manifest.status == Recording
    decreases |calls|
  {
    hide RecorderInv, Do, OpenHandle;
    StuckIsNotFinal(h, s, k);
    hide Stuck;
    if calls != [] {
      DoKeepsDecisions(h, s, calls[0]);
      LogGrowsOverRun(h, Do(h, s, calls[0]), calls[1..]);
      CallKeeps(h, s, calls[0]);
      CallKeepsStuck(h, s, calls[0], k);
      RefusalBlocksFinalize(h, Do(h, s, calls[0]), k, calls[1..]);
    }
  }
}
