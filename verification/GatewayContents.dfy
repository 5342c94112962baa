/** What the frames hold, field by field: those the recorder writes for a call, and those of a bundle the
    verifier accepts, whoever wrote it (src/gateway.ts, src/gateway-verify.ts). */
module GatewayContents {
  import opened Common
  import opened GatewayFrames
  import opened GatewayRecording
  import opened GatewayInvariant
  import opened GatewayRefusals
  import opened GatewaySoundness

  // ----- what is recorded -----

  /** The attempt of a prepare, its request kept as a digest. */
  predicate AttemptHolds(h: Hash, a: Attempt, input: PrepareInput) {
    && a.provider == input.provider && a.requestedModel == input.requestedModel
    && a.logicalId == input.logicalId && a.number == input.number && a.retryOf == input.retryOf
    && a.request.mediaType == input.mediaType && a.request.byteLength == |input.body|
    && a.request.sha == h(RawBytes(input.body)) && a.request.digestOnly
  }

  predicate PolicyHolds(h: Hash, p: Policy, input: PrepareInput, evaluatedAt: Time) {
    && p.body.provider == input.provider && p.body.requestedModel == input.requestedModel
    && p.body.logicalId == input.logicalId && p.body.number == input.number
    && p.body.requestSha == h(RawBytes(input.body))
    && p.body.verdict == input.verdict && p.body.censor == input.censor
    && p.body.reasonCodes == input.reasonCodes && p.body.policySha == input.policySha
    && p.body.evaluatedAt == evaluatedAt
    && p.receiptSha == h(PolicyContent(p.body))
  }

  /** The occurrence digest covers these fields of the attempt. */
  predicate OccurrenceHolds(h: Hash, f: Frame) {
    var a := f.body.attempt;
    f.body.occurrence
    == h(OccurrenceContent(OccurrenceBody(a.provider, a.requestedModel, a.logicalId, a.number, a.retryOf, a.request.sha)))
  }

  /** Frame i of a log, linked to the one before and sealed. */
  predicate Linked(h: Hash, session: string, log: seq<Frame>, i: nat)
    requires i < |log|
  {
    && log[i].body.session == session && log[i].body.sequence == i
    && log[i].body.previous == (if i == 0 then GENESIS else log[i - 1].sha)
    && log[i].sha == h(FrameContent(log[i].body))
    && OccurrenceHolds(h, log[i])
  }

  /** A censored action: its outcome names who blocked the attempt, and nothing was dispatched. */
  predicate CensoredHolds(t: Terminal, censor: Option<Censor>, reasonCodes: seq<string>) {
    && (t.outcome == PolicyCensored <==> censor == Some(ByPolicy))
    && (t.outcome == BudgetCensored <==> censor == Some(ByBudget))
    && !t.dispatchOccurred && t.resolvedModel.None? && t.response.None? && t.usage.None? && t.httpStatus.None?
    && t.dispatchStartedAt.None? && t.terminalObservedAt.None? && t.responseReceivedAt.None? && t.latencyMs.None?
    && t.failureCode.Some? && t.failureCode.value in reasonCodes
  }

  lemma EmittedFrame(h: Hash, r: Recorder, at: Time, a: Attempt, detail: Detail)
    requires CountersAgree(h, r) && Emit(h, r, at, a, detail).1.Ok?
    ensures var (r', out) := Emit(h, r, at, a, detail);
            && CountersAgree(h, r') && r'.log == r.log + [out.value]
            && Linked(h, r.manifest.session, r'.log, |r.log|)
            && out.value.body.observedAt == at && out.value.body.attempt == a && out.value.body.detail == detail
            && r' == r.(chain := r'.chain, log := r'.log, manifest := r'.manifest)
            && r'.manifest == r.manifest.(frameCount := |r'.log|, chainHead := out.value.sha)
  {
    EmitAppends(h, r, at, a, detail);
    hide Chained, Clean, FrameIssues, StableId;
  }

  /** A new recorder has recorded nothing and may be written. */
  lemma NewRecorderHolds(session: string, createdAt: Time)
    ensures var r := NewRecorder(session, createdAt);
            && r.log == [] && r.openAttempts == 0 && r.logical == map[] && r.chain == Chain(0, GENESIS)
            && r.manifest.session == session && r.manifest.createdAt == createdAt && r.manifest.finalizedAt.None?
            && r.manifest.status == Recording && r.manifest.frameCount == 0 && r.manifest.attemptCount == 0
            && r.manifest.chainHead == GENESIS
  {
  }

  /** A prepare that returns has recorded its decision, a blocked one also its censored action. */
  lemma PreparedFrames(h: Hash, r: Recorder, input: PrepareInput, clock: PrepareClock)
    requires CountersAgree(h, r) && Prepare(h, r, input, clock).1.Ok?
    ensures var (r', out) := Prepare(h, r, input, clock);
            var (n, decision) := (|r.log|, out.value.decision);
            && |r'.log| == n + (if input.verdict == Blocked then 2 else 1) && r.log <= r'.log && r'.log[n] == decision
            && Linked(h, r.manifest.session, r'.log, n) && decision.body.observedAt == clock.decisionAt
            && AttemptHolds(h, decision.body.attempt, input)
            && decision.body.detail.Decision? && PolicyHolds(h, decision.body.detail.policy, input, clock.evaluatedAt)
            && out.value.dispatchedAt.None? && (out.value.censored <==> input.verdict == Blocked)
            && (out.value.closed <==> input.verdict == Blocked)
            && (input.verdict == Blocked ==> BlockedFrame(h, r, r', input, decision, clock.actionAt))
            && Accounts(r, r', input.verdict)
  {
    hide CountersAgree, StableId, KnownProvider, ModelPin, ReasonCodesOk, Emit, LineageRefusal, Linked, FrameIssues, Clean;
    var ref := ContentReference(h, input.body, input.mediaType).value;
    var (a, policy) := (AttemptFor(input, ref), PolicyFor(h, input, ref, clock.evaluatedAt));
    var (r1, decided) := Emit(h, r, clock.decisionAt, a, Decision(policy));
    EmittedFrame(h, r, clock.decisionAt, a, Decision(policy));
    var r2 := Remember(r1, a, decided.value.body.occurrence);
    if input.verdict == Blocked {
      FirstReasonIsStable(input.reasonCodes);
      CensorKinds(input.censor);
      var detail := Action(policy.receiptSha, CensoredTerminal(policy.body));
      RememberingKeeps(h, r1, a, decided.value.body.occurrence);
      EmittedFrame(h, r2, clock.actionAt, a, detail);
      LinkedBefore(h, r.manifest.session, r1.log, Emit(h, r2, clock.actionAt, a, detail).0.log, |r.log|);
    }
  }

  lemma CensorKinds(c: Option<Censor>)
    ensures c == None || c == Some(ByPolicy) || c == Some(ByBudget)
  {
    if c.Some? { assert c.value.ByPolicy? || c.value.ByBudget?; }
  }

  lemma LinkedBefore(h: Hash, session: string, log: seq<Frame>, grown: seq<Frame>, i: nat)
    requires i < |log| && log <= grown && Linked(h, session, log, i)
    ensures Linked(h, session, grown, i)
  {
    assert forall k :: 0 <= k < |log| ==> grown[k] == log[k];
  }

  lemma RememberingKeeps(h: Hash, r: Recorder, a: Attempt, o: Digest)
    requires CountersAgree(h, r)
    ensures CountersAgree(h, Remember(r, a, o))
  {
    hide Chained, StableId;
  }

  /** The action that follows a blocked decision. */
  predicate BlockedFrame(h: Hash, r: Recorder, r': Recorder, input: PrepareInput, decision: Frame, at: Time)
    requires |r'.log| == |r.log| + 2 && decision.body.detail.Decision?
  {
    var action := r'.log[|r.log| + 1];
    && Linked(h, r.manifest.session, r'.log, |r.log| + 1) && action.body.observedAt == at
    && action.body.attempt == decision.body.attempt && action.body.detail.Action?
    && action.body.detail.policyReceiptSha == decision.body.detail.policy.receiptSha
    && CensoredHolds(action.body.detail.terminal, input.censor, input.reasonCodes)
    && action.body.detail.terminal.failureCode == Some(if input.reasonCodes == [] then "" else input.reasonCodes[0])
  }

  /** The counters of a prepare: an allowed attempt is open, a blocked one is done. */
  predicate Accounts(r: Recorder, r': Recorder, verdict: Verdict) {
    && r'.openAttempts == r.openAttempts + (if verdict == Allowed then 1 else 0)
    && r'.manifest.attemptCount == r.manifest.attemptCount + (if verdict == Blocked then 1 else 0)
    && r'.manifest.frameCount == |r'.log|
    && r'.manifest.session == r.manifest.session && r'.manifest.createdAt == r.manifest.createdAt
    && r'.manifest.finalizedAt == r.manifest.finalizedAt && r'.manifest.status == r.manifest.status
  }

  /** The frame that ends an attempt: the decision's attempt and policy receipt, and times in their places. */
  predicate EndingHolds(h: Hash, r: Recorder, log: seq<Frame>, a: Handle, clock: CloseClock)
    requires |log| == |r.log| + 1 && a.decision.IsDecision()
  {
    var action := log[|r.log|];
    && r.log <= log && Linked(h, r.manifest.session, log, |r.log|) && action.body.observedAt == clock.observedAt
    && action.body.attempt == a.decision.body.attempt && action.body.detail.Action?
    && action.body.detail.policyReceiptSha == a.decision.body.detail.policy.receiptSha
    && var t := action.body.detail.terminal;
       && t.dispatchOccurred && t.dispatchStartedAt == a.dispatchedAt && t.terminalObservedAt == Some(clock.terminalAt)
       && t.latencyMs == Some(clock.latencyMs)
       && t.responseReceivedAt == (if t.response.Some? then Some(clock.terminalAt) else None)
  }

  predicate ResponseHolds(h: Hash, c: Option<ContentRef>, body: seq<bv8>, mediaType: string) {
    && c.Some? && c.value.mediaType == mediaType && c.value.byteLength == |body|
    && c.value.sha == h(RawBytes(body)) && c.value.digestOnly
  }

  lemma ClosedFrame(h: Hash, r: Recorder, a: Handle, t: Terminal, clock: CloseClock)
    requires CountersAgree(h, r) && a.decision.IsDecision() && Finish(h, r, a, t, clock).2.Ok?
    ensures var (r', a', out) := Finish(h, r, a, t, clock);
            && a' == a.(closed := true) && r'.log == r.log + [out.value]
            && Linked(h, r.manifest.session, r'.log, |r.log|) && out.value.body.observedAt == clock.observedAt
            && out.value.body.attempt == a.decision.body.attempt
            && out.value.body.detail == Action(a.decision.body.detail.policy.receiptSha, t)
            && r'.openAttempts == r.openAttempts - 1 && r'.manifest.attemptCount == r.manifest.attemptCount + 1
            && r'.manifest.frameCount == |r'.log| && r'.manifest.status == r.manifest.status
  {
    hide CountersAgree, Emit, Linked;
    var detail := Action(a.decision.body.detail.policy.receiptSha, t);
    if Emit(h, r, clock.observedAt, a.decision.body.attempt, detail).1.Ok? {
      EmittedFrame(h, r, clock.observedAt, a.decision.body.attempt, detail);
    }
  }

  /** A success that is recorded, as a success exactly if the resolved model is the requested one and as an
      identity mismatch otherwise, with its response, its usage and its status. */
  lemma SucceededFrame(h: Hash, r: Recorder, a: Handle, input: SuccessInput, clock: CloseClock)
    requires CountersAgree(h, r) && a.decision.IsDecision()
    ensures var (r', a', out) := Succeed(h, r, a, input, clock);
            |r'.log| != |r.log| ==>
              && |r'.log| == |r.log| + 1 && EndingHolds(h, r, r'.log, a, clock) && a'.closed
              && var t := r'.log[|r.log|].body.detail.terminal;
                 var same := input.resolvedModel == a.decision.body.attempt.requestedModel;
                 && (t.outcome == Success <==> same) && (t.outcome == IdentityMismatch <==> !same)
                 && (out.Ok? <==> same) && (out.Err? ==> out.error == IdentityMismatchRecorded(r'.log[|r.log|]))
                 && t.resolvedModel == Some(input.resolvedModel) && t.usage == Some(input.usage)
                 && t.httpStatus == Some(input.httpStatus) && ResponseHolds(h, t.response, input.body, input.mediaType)
                 && t.failureCode == (if same then None else Some("resolved_model_identity_mismatch"))
  {
    hide CountersAgree, Finish, SuccessRefusal, Linked;
    var ref := ContentReference(h, input.body, input.mediaType);
    if SuccessRefusal(a, input).None? && ref.Ok? {
      var t := SuccessTerminal(a, input, ref.value, clock);
      if Finish(h, r, a, t, clock).2.Ok? {
        ClosedFrame(h, r, a, t, clock);
      } else {
        FinishErrKeeps(h, r, a, t, clock);
      }
    }
  }

  lemma FinishErrKeeps(h: Hash, r: Recorder, a: Handle, t: Terminal, clock: CloseClock)
    requires a.decision.IsDecision() && Finish(h, r, a, t, clock).2.Err?
    ensures Finish(h, r, a, t, clock).0.log == r.log
  {
    hide FrameIssues;
  }

  /** A failure that is recorded, with what the caller gave of it. */
  lemma FailedFrame(h: Hash, r: Recorder, a: Handle, input: FailureInput, clock: CloseClock)
    requires CountersAgree(h, r) && a.decision.IsDecision()
    ensures var (r', a', out) := Fail(h, r, a, input, clock);
            |r'.log| != |r.log| ==>
              && |r'.log| == |r.log| + 1 && EndingHolds(h, r, r'.log, a, clock) && a'.closed && out == Ok(r'.log[|r.log|])
              && var t := r'.log[|r.log|].body.detail.terminal;
                 && t.outcome == input.outcome && t.resolvedModel == input.resolvedModel && t.usage == input.usage
                 && t.httpStatus == input.httpStatus && t.failureCode == Some(input.failureCode)
                 && (if input.body.Some? && input.mediaType.Some?
                     then ResponseHolds(h, t.response, input.body.value, input.mediaType.value)
                     else t.response.None?)
  {
    hide CountersAgree, Finish, FailureRefusal, Linked;
    var ref := FailureResponse(h, input);
    if FailureRefusal(a, input).None? && ref.Ok? {
      var t := FailureTerminal(a, input, ref.value, clock);
      if Finish(h, r, a, t, clock).2.Ok? {
        ClosedFrame(h, r, a, t, clock);
      } else {
        FinishErrKeeps(h, r, a, t, clock);
      }
    }
  }

  /** A finalized manifest differs from the recording one in its status and instant alone. */
  lemma FinalizedManifest(r: Recorder, at: Time)
    ensures var (r', refused) := Finalize(r, at);
            && r'.log == r.log && r'.openAttempts == r.openAttempts
            && (refused == Some(OpenAttemptsRemain) <==> r.manifest.status == Recording && r.openAttempts != 0)
            && (refused == Some(EmptyBundle) <==>
                  r.manifest.status == Recording && r.openAttempts == 0 && r.manifest.attemptCount == 0)
            && (refused.None? && r.manifest.status == Recording ==>
                  && r'.manifest.status == Finalized && r'.manifest.finalizedAt == Some(at)
                  && r'.manifest.session == r.manifest.session && r'.manifest.createdAt == r.manifest.createdAt
                  && r'.manifest.frameCount == r.manifest.frameCount && r'.manifest.attemptCount == r.manifest.attemptCount
                  && r'.manifest.chainHead == r.manifest.chainHead)
            && (refused.Some? || r.manifest.status != Recording ==> r' == r)
  {
  }

  // ----- what is accepted -----

  predicate FormatsHold(f: Frame) {
    var a := f.body.attempt;
    && StableId(f.body.session) && KnownProvider(a.provider) && ModelPin(a.requestedModel) && StableId(a.logicalId)
    && SafeInteger(a.number) && 1 <= a.number && (a.number == 1 <==> a.retryOf.None?)
    && PrintableMediaType(a.request.mediaType) && SafeInteger(a.request.byteLength) && 0 <= a.request.byteLength
    && a.request.digestOnly
  }

  /** What the policy receipt of an accepted decision says of that decision. */
  predicate ReceiptHolds(h: Hash, f: Frame) {
    f.IsDecision() ==>
      var (p, a) := (f.body.detail.policy, f.body.attempt);
      && p.body.provider == a.provider && p.body.requestedModel == a.requestedModel
      && p.body.logicalId == a.logicalId && p.body.number == a.number && p.body.requestSha == a.request.sha
      && p.body.evaluatedAt <= f.body.observedAt && p.receiptSha == h(PolicyContent(p.body))
      && p.body.reasonCodes != [] && (p.body.verdict == Blocked <==> p.body.censor.Some?)
  }

  predicate Dispatched(t: Terminal, observedAt: Time) {
    && t.dispatchOccurred && t.dispatchStartedAt.Some? && t.terminalObservedAt.Some?
    && t.dispatchStartedAt.value <= t.terminalObservedAt.value <= observedAt
    && t.latencyMs.Some? && 0 <= t.latencyMs.value
    && t.responseReceivedAt == (if t.response.Some? then t.terminalObservedAt else None)
  }

  /** Which fields an accepted terminal has, by its outcome. */
  predicate TerminalHolds(t: Terminal, requestedModel: string, observedAt: Time) {
    && (t.response.Some? ==> t.response.value.digestOnly)
    && (t.outcome in {PolicyCensored, BudgetCensored} || Dispatched(t, observedAt))
    && OutcomeHolds(t, requestedModel) && ValuesHold(t)
  }

  predicate OutcomeHolds(t: Terminal, requestedModel: string) {
    match t.outcome
    case Success =>
      && t.resolvedModel == Some(requestedModel) && t.response.Some? && t.usage.Some? && t.failureCode.None?
      && t.httpStatus.Some? && 200 <= t.httpStatus.value <= 299
    case IdentityMismatch =>
      && t.resolvedModel.Some? && t.resolvedModel.value != requestedModel && t.response.Some? && t.usage.Some?
      && t.failureCode == Some("resolved_model_identity_mismatch")
      && t.httpStatus.Some? && 200 <= t.httpStatus.value <= 299
    case TransportFailure =>
      && t.resolvedModel.None? && t.response.None? && t.usage.None? && t.httpStatus.None? && t.failureCode.Some?
    case ProviderFailure =>
      && t.response.Some? && t.httpStatus.Some? && 400 <= t.httpStatus.value <= 599 && t.failureCode.Some?
      && (t.resolvedModel.Some? ==> t.resolvedModel.value == requestedModel)
    case ProtocolFailure =>
      && t.response.Some? && t.httpStatus.Some? && 100 <= t.httpStatus.value <= 599 && t.failureCode.Some?
      && (t.resolvedModel.Some? ==> t.resolvedModel.value == requestedModel)
    case _ =>
      && !t.dispatchOccurred && t.resolvedModel.None? && t.response.None? && t.usage.None? && t.httpStatus.None?
      && t.dispatchStartedAt.None? && t.terminalObservedAt.None? && t.responseReceivedAt.None? && t.latencyMs.None?
      && t.failureCode.Some?
  }

  lemma CleanCommon(h: Hash, f: Frame)
    requires Clean(h, f)
    ensures FormatsHold(f) && OccurrenceHolds(h, f) && f.sha == h(FrameContent(f.body))
  {
    hide StableId, KnownProvider, ModelPin, PrintableMediaType, PolicyRaises, ActionRaises;
    assert !Raises(h, SessionIdInvalid, f) && !Raises(h, ProviderInvalid, f);
    assert !Raises(h, ModelNotPinned, f) && !Raises(h, LogicalIdInvalid, f);
    assert !Raises(h, AttemptNumberInvalid, f) && !Raises(h, FirstAttemptHasParent, f) && !Raises(h, RetryParentMissing, f);
    assert !Raises(h, RequestInvalid, f) && !Raises(h, RawRequestRetained, f);
    assert !Raises(h, OccurrenceMismatch, f) && !Raises(h, FrameDigestMismatch, f);
  }

  lemma CleanReceipt(h: Hash, f: Frame)
    requires Clean(h, f)
    ensures ReceiptHolds(h, f)
  {
    hide StableId, CommonRaises, ActionRaises;
    assert !Raises(h, PolicyBindingMismatch, f) && !Raises(h, PolicyTimingInvalid, f) && !Raises(h, PolicyReceiptMismatch, f);
    assert !Raises(h, ReasonCodesInvalid, f) && !Raises(h, AllowedHasCensor, f) && !Raises(h, BlockedCensorMissing, f);
  }

  lemma NotRaised(h: Hash, f: Frame, issue: FrameIssue)
    requires Clean(h, f) && f.IsAction()
    ensures !ActionRaises(issue, f.body, f.body.detail.terminal)
  {
    hide CommonRaises, ActionRaises;
    assert !Raises(h, issue, f);
  }

  lemma CleanTimes(h: Hash, f: Frame)
    requires Clean(h, f) && f.IsAction()
    ensures var t := f.body.detail.terminal; t.outcome in {PolicyCensored, BudgetCensored} || Dispatched(t, f.body.observedAt)
  {
    NotRaised(h, f, DispatchTimingMissing);
    NotRaised(h, f, DispatchTimingInvalid);
    NotRaised(h, f, ResponseTimingInvalid);
    hide Clean;
  }

  lemma CleanShape(h: Hash, f: Frame)
    requires Clean(h, f) && f.IsAction()
    ensures var t := f.body.detail.terminal;
            && (t.response.Some? ==> t.response.value.digestOnly)
            && OutcomeHolds(t, f.body.attempt.requestedModel)
  {
    var t := f.body.detail.terminal;
    NotRaised(h, f, RawResponseRetained);
    NotRaised(h, f, HttpStatusInvalid);
    NotRaised(h, f, ResolvedModelMismatch);
    match t.outcome {
      case Success => NotRaised(h, f, SuccessShapeInvalid);
      case IdentityMismatch => NotRaised(h, f, MismatchShapeInvalid);
      case TransportFailure => NotRaised(h, f, TransportShapeInvalid);
      case ProviderFailure => NotRaised(h, f, ProviderShapeInvalid);
      case ProtocolFailure => NotRaised(h, f, ProtocolShapeInvalid);
      case _ => NotRaised(h, f, CensorShapeInvalid);
    }
    hide Clean;
  }

  /** The numbers, the model and the code of an accepted terminal. */
  predicate ValuesHold(t: Terminal) {
    && (t.resolvedModel.Some? ==> ModelPin(t.resolvedModel.value))
    && (t.failureCode.Some? ==> StableId(t.failureCode.value))
    && (t.latencyMs.Some? ==> t.latencyMs.value <= 9_007_199_254_740_991)
    && (t.usage.Some? ==>
          var u := t.usage.value;
          && 0 <= u.input <= 9_007_199_254_740_991 && 0 <= u.output <= 9_007_199_254_740_991
          && (u.cacheRead.Some? ==> 0 <= u.cacheRead.value <= 9_007_199_254_740_991)
          && (u.cacheWrite.Some? ==> 0 <= u.cacheWrite.value <= 9_007_199_254_740_991)
          && (u.total.Some? ==> u.input + u.output <= u.total.value <= 9_007_199_254_740_991))
  }

  lemma CleanValues(h: Hash, f: Frame)
    requires Clean(h, f) && f.IsAction()
    ensures ValuesHold(f.body.detail.terminal)
  {
    var t := f.body.detail.terminal;
    NotRaised(h, f, ResolvedModelInvalid);
    NotRaised(h, f, FailureCodeInvalid);
    NotRaised(h, f, UsageInvalid);
    NotRaised(h, f, DispatchTimingMissing);
    NotRaised(h, f, CensorShapeInvalid);
    hide Clean, ModelPin, StableId;
  }

  lemma CleanTerminal(h: Hash, f: Frame)
    requires Clean(h, f) && f.IsAction()
    ensures TerminalHolds(f.body.detail.terminal, f.body.attempt.requestedModel, f.body.observedAt)
  {
    hide Clean, Dispatched, OutcomeHolds, ValuesHold;
    CleanTimes(h, f);
    CleanValues(h, f);
    CleanShape(h, f);
  }

  /** Every frame of an accepted bundle, whoever wrote it, is linked, well-formed, and holds what its kind and
      outcome ask for. */
  lemma AcceptedFrameHolds(h: Hash, m: Manifest, frames: seq<Frame>, i: nat)
    requires Accepted(h, m, frames) && i < |frames|
    ensures Linked(h, m.session, frames, i) && FormatsHold(frames[i]) && ReceiptHolds(h, frames[i])
    ensures frames[i].IsAction() ==>
              TerminalHolds(frames[i].body.detail.terminal, frames[i].body.attempt.requestedModel, frames[i].body.observedAt)
  {
    AcceptedIsChained(h, m, frames);
    hide Accepted, Clean;
    CleanCommon(h, frames[i]);
    CleanReceipt(h, frames[i]);
    if frames[i].IsAction() { CleanTerminal(h, frames[i]); }
  }

  /** In an accepted bundle the action of a decision names who blocked it, if it was blocked, and was
      dispatched, after the policy was evaluated, if it was not. */
  lemma AcceptedActionHolds(h: Hash, m: Manifest, frames: seq<Frame>, d: nat, a: nat)
    requires Accepted(h, m, frames) && d < |frames| && a < |frames| && LonePair(frames, d, a)
    ensures var (p, t) := (frames[d].body.detail.policy.body, frames[a].body.detail.terminal);
            && frames[a].body.attempt == frames[d].body.attempt
            && frames[a].body.detail.policyReceiptSha == frames[d].body.detail.policy.receiptSha
            && (p.verdict == Blocked ==> CensoredHolds(t, p.censor, p.reasonCodes))
            && (p.verdict == Allowed ==>
                  && t.outcome !in {PolicyCensored, BudgetCensored} && t.dispatchOccurred
                  && t.dispatchStartedAt.Some? && p.evaluatedAt <= t.dispatchStartedAt.value)
  {
    AcceptedFrameHolds(h, m, frames, d);
    AcceptedFrameHolds(h, m, frames, a);
    hide Accepted, FormatsHold, Linked;
    var p := frames[d].body.detail.policy.body;
    CensorKinds(p.censor);
    assert frames[a].body.attempt == frames[d].body.attempt;
  }
}
