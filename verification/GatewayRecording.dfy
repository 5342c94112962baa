/** What each call on the gateway recorder does to its state (src/gateway.ts).
    The recorder keeps the frame chain's counters and the manifest's counters apart,
    exactly as the source does; that they agree is proved in GatewayInvariant. */
module GatewayRecording {
  import opened Common
  import opened GatewayFrames

  datatype Status = Recording | Finalized

  datatype Manifest = Manifest(
    session: string,
    createdAt: Time,
    finalizedAt: Option<Time>,
    status: Status,
    frameCount: int,
    attemptCount: int,
    chainHead: Digest)

  datatype Chain = Chain(sequence: int, head: Digest)

  datatype Recorder = Recorder(
    chain: Chain,
    log: seq<Frame>,
    manifest: Manifest,
    openAttempts: int,
    logical: map<string, map<int, Digest>>)

  /** The fields of a GatewayAttempt object. */
  datatype Handle = Handle(decision: Frame, censored: bool, dispatchedAt: Option<Time>, closed: bool)

  datatype GatewayError =
    | RecorderFinalized
    | InputRefused(issue: FrameIssue)
    | AllowedPolicyHasCensor
    | BlockedPolicyWithoutCensor
    | ContentMissing
    | MediaTypeRefused
    | AttemptDuplicate
    | RetryParentNotRecorded
    | FrameRefused(issues: set<FrameIssue>)
    | SpoolSessionMismatch
    | SpoolSequenceMismatch
    | SpoolPreviousMismatch
    | OpenAttemptsRemain
    | EmptyBundle
    | AccountingInvalid
    | CensoredCannotDispatch
    | AttemptClosed
    | AlreadyDispatched
    | NotDispatched
    | SuccessStatusRefused
    | FailureOutcomeRefused
    | FailureModelMismatch
    | TransportHasResponse
    | ResponseEvidenceMissing
    | ProviderStatusRefused
    | IdentityMismatchRecorded(frame: Frame)

  datatype PrepareInput = PrepareInput(
    provider: string,
    requestedModel: string,
    logicalId: string,
    number: int,
    retryOf: Option<Digest>,
    body: seq<bv8>,
    mediaType: string,
    verdict: Verdict,
    censor: Option<Censor>,
    reasonCodes: seq<string>,
    policySha: Digest)

  datatype PrepareClock = PrepareClock(evaluatedAt: Time, decisionAt: Time, actionAt: Time)

  datatype SuccessInput = SuccessInput(
    body: seq<bv8>,
    mediaType: string,
    resolvedModel: string,
    usage: Usage,
    httpStatus: int)

  datatype FailureInput = FailureInput(
    outcome: Outcome,
    body: Option<seq<bv8>>,
    mediaType: Option<string>,
    resolvedModel: Option<string>,
    usage: Option<Usage>,
    httpStatus: Option<int>,
    failureCode: string)

  datatype CloseClock = CloseClock(terminalAt: Time, observedAt: Time, latencyMs: nat)

  function NewRecorder(session: string, createdAt: Time): Recorder {
    Recorder(Chain(0, GENESIS), [], Manifest(session, createdAt, None, Recording, 0, 0, GENESIS), 0, map[])
  }

  function ContentReference(h: Hash, bytes: seq<bv8>, mediaType: string): Result<ContentRef, GatewayError> {
    if bytes == [] then Err(ContentMissing)
    else if !PrintableMediaType(mediaType) then Err(MediaTypeRefused)
    else Ok(ContentRef(mediaType, |bytes|, h(RawBytes(bytes)), true))
  }

  // ----- GatewayFrameChain.append followed by GatewayRecorder.append -----

  function NextFrame(h: Hash, r: Recorder, observedAt: Time, a: Attempt, detail: Detail): Frame {
    var body := FrameBody(r.manifest.session, r.chain.sequence, observedAt, a, OccurrenceSha(h, a), detail, r.chain.head);
    Frame(body, h(FrameContent(body)))
  }

  function SpoolRefusal(h: Hash, m: Manifest, f: Frame): Option<GatewayError> {
    if FrameIssues(h, f) != {} then Some(FrameRefused(FrameIssues(h, f)))
    else if f.body.session != m.session then Some(SpoolSessionMismatch)
    else if f.body.sequence != m.frameCount then Some(SpoolSequenceMismatch)
    else if f.body.previous != m.chainHead then Some(SpoolPreviousMismatch)
    else None
  }

  function Emit(h: Hash, r: Recorder, observedAt: Time, a: Attempt, detail: Detail)
    : (Recorder, Result<Frame, GatewayError>)
  {
    var f := NextFrame(h, r, observedAt, a, detail);
    if FrameIssues(h, f) != {} then (r, Err(FrameRefused(FrameIssues(h, f))))
    else
      // The chain has advanced before the spool looks at the frame.
      var advanced := r.(chain := Chain(r.chain.sequence + 1, f.sha));
      match SpoolRefusal(h, r.manifest, f)
      case Some(e) => (advanced, Err(e))
      case None =>
        (advanced.(log := r.log + [f],
                   manifest := r.manifest.(frameCount := r.manifest.frameCount + 1, chainHead := f.sha)),
         Ok(f))
  }

  // ----- prepare -----

  function PrepareRefusal(input: PrepareInput): Option<GatewayError> {
    if !KnownProvider(input.provider) then Some(InputRefused(ProviderInvalid))
    else if !ModelPin(input.requestedModel) then Some(InputRefused(ModelNotPinned))
    else if !StableId(input.logicalId) then Some(InputRefused(LogicalIdInvalid))
    else if !SafeInteger(input.number) || input.number < 1 then Some(InputRefused(AttemptNumberInvalid))
    else if input.number == 1 && input.retryOf.Some? then Some(InputRefused(FirstAttemptHasParent))
    else if input.number > 1 && input.retryOf.None? then Some(InputRefused(RetryParentMissing))
    else if !ReasonCodesOk(input.reasonCodes) then Some(InputRefused(ReasonCodesInvalid))
    else if input.verdict == Allowed && input.censor.Some? then Some(AllowedPolicyHasCensor)
    else if input.verdict == Blocked && input.censor.None? then Some(BlockedPolicyWithoutCensor)
    else None
  }

  function AttemptFor(input: PrepareInput, request: ContentRef): Attempt {
    Attempt(input.provider, input.requestedModel, input.logicalId, input.number, input.retryOf, request)
  }

  function PolicyFor(h: Hash, input: PrepareInput, request: ContentRef, evaluatedAt: Time): Policy {
    var body := PolicyBody(input.provider, input.requestedModel, input.logicalId, input.number, request.sha,
                           input.verdict, input.censor, input.reasonCodes, input.policySha, evaluatedAt);
    Policy(body, h(PolicyContent(body)))
  }

  function CensoredTerminal(p: PolicyBody): Terminal {
    Terminal(CensorOutcome(p), false, None, None, None, None, None, None, None, None,
             Some(if p.reasonCodes == [] then "pre_dispatch_censored" else p.reasonCodes[0]))
  }

  function PriorAttempts(r: Recorder, logicalId: string): map<int, Digest> {
    if logicalId in r.logical then r.logical[logicalId] else map[]
  }

  function LineageRefusal(r: Recorder, input: PrepareInput): Option<GatewayError> {
    var prior := PriorAttempts(r, input.logicalId);
    if input.number in prior then Some(AttemptDuplicate)
    else if input.number > 1 && (input.number - 1 !in prior || Some(prior[input.number - 1]) != input.retryOf) then
      Some(RetryParentNotRecorded)
    else None
  }

  function Remember(r: Recorder, a: Attempt, occurrence: Digest): Recorder {
    r.(logical := r.logical[a.logicalId := PriorAttempts(r, a.logicalId)[a.number := occurrence]])
  }

  function CountAttempt(r: Recorder): Recorder {
    r.(manifest := r.manifest.(attemptCount := r.manifest.attemptCount + 1))
  }

  /** Everything in prepare after its inputs have been accepted. */
  function Admit(h: Hash, r: Recorder, a: Attempt, policy: Policy, clock: PrepareClock)
    : (Recorder, Result<Handle, GatewayError>)
  {
    var (r1, decided) := Emit(h, r, clock.decisionAt, a, Decision(policy));
    match decided
    case Err(e) => (r1, Err(e))
    case Ok(decision) =>
      var r2 := Remember(r1, a, decision.body.occurrence);
      if policy.body.verdict == Blocked then
        var (r3, acted) := Emit(h, r2, clock.actionAt, a, Action(policy.receiptSha, CensoredTerminal(policy.body)));
        match acted
        case Err(e) => (r3, Err(e))
        case Ok(_) => (CountAttempt(r3), Ok(Handle(decision, true, None, true)))
      else
        (r2.(openAttempts := r2.openAttempts + 1), Ok(Handle(decision, false, None, false)))
  }

  function Prepare(h: Hash, r: Recorder, input: PrepareInput, clock: PrepareClock)
    : (Recorder, Result<Handle, GatewayError>)
  {
    if r.manifest.status != Recording then (r, Err(RecorderFinalized))
    else
      match PrepareRefusal(input)
      case Some(e) => (r, Err(e))
      case None =>
        match ContentReference(h, input.body, input.mediaType)
        case Err(e) => (r, Err(e))
        case Ok(request) =>
          match LineageRefusal(r, input)
          case Some(e) => (r, Err(e))
          case None => Admit(h, r, AttemptFor(input, request), PolicyFor(h, input, request, clock.evaluatedAt), clock)
  }

  // ----- GatewayAttempt -----

  function MarkDispatched(a: Handle, at: Time): (Handle, Option<GatewayError>) {
    if a.censored then (a, Some(CensoredCannotDispatch))
    else if a.closed then (a, Some(AttemptClosed))
    else if a.dispatchedAt.Some? then (a, Some(AlreadyDispatched))
    else (a.(dispatchedAt := Some(at)), None)
  }

  function NotReady(a: Handle): Option<GatewayError> {
    if a.closed then Some(AttemptClosed)
    else if a.dispatchedAt.None? then Some(NotDispatched)
    else None
  }

  function CloseAttempt(h: Hash, r: Recorder, decision: Frame, t: Terminal, observedAt: Time)
    : (Recorder, Result<Frame, GatewayError>)
    requires decision.IsDecision()
  {
    if r.openAttempts < 1 then (r, Err(AccountingInvalid))
    else
      var (r1, acted) := Emit(h, r, observedAt, decision.body.attempt, Action(decision.body.detail.policy.receiptSha, t));
      match acted
      case Err(e) => (r1, Err(e))
      case Ok(f) => (CountAttempt(r1.(openAttempts := r1.openAttempts - 1)), Ok(f))
  }

  /** The handle is closed before the recorder can refuse the terminal frame. */
  function Finish(h: Hash, r: Recorder, a: Handle, t: Terminal, clock: CloseClock)
    : (Recorder, Handle, Result<Frame, GatewayError>)
    requires a.decision.IsDecision()
  {
    var (r1, acted) := CloseAttempt(h, r, a.decision, t, clock.observedAt);
    (r1, a.(closed := true), acted)
  }

  function SuccessTerminal(a: Handle, input: SuccessInput, response: ContentRef, clock: CloseClock): Terminal {
    var matched := input.resolvedModel == a.decision.body.attempt.requestedModel;
    Terminal(if matched then Success else IdentityMismatch, true, Some(input.resolvedModel), Some(response),
             Some(input.usage), Some(input.httpStatus), a.dispatchedAt, Some(clock.terminalAt),
             Some(clock.terminalAt), Some(clock.latencyMs),
             if matched then None else Some("resolved_model_identity_mismatch"))
  }

  function SuccessRefusal(a: Handle, input: SuccessInput): Option<GatewayError> {
    match NotReady(a)
    case Some(e) => Some(e)
    case None =>
      if !ModelPin(input.resolvedModel) then Some(InputRefused(ResolvedModelInvalid))
      else if !UsageOk(input.usage) then Some(InputRefused(UsageInvalid))
      else if !HttpStatusOk(input.httpStatus) then Some(InputRefused(HttpStatusInvalid))
      else if !HttpSuccess(input.httpStatus) then Some(SuccessStatusRefused)
      else None
  }

  function Succeed(h: Hash, r: Recorder, a: Handle, input: SuccessInput, clock: CloseClock)
    : (Recorder, Handle, Result<Frame, GatewayError>)
    requires a.decision.IsDecision()
  {
    match SuccessRefusal(a, input)
    case Some(e) => (r, a, Err(e))
    case None =>
      match ContentReference(h, input.body, input.mediaType)
      case Err(e) => (r, a, Err(e))
      case Ok(response) =>
        var (r1, a1, acted) := Finish(h, r, a, SuccessTerminal(a, input, response, clock), clock);
        match acted
        case Err(e) => (r1, a1, Err(e))
        case Ok(f) =>
          (r1, a1, if input.resolvedModel == a.decision.body.attempt.requestedModel then Ok(f)
                   else Err(IdentityMismatchRecorded(f)))
  }

  function FailureRefusal(a: Handle, input: FailureInput): Option<GatewayError> {
    match NotReady(a)
    case Some(e) => Some(e)
    case None =>
      if !StableId(input.failureCode) then Some(InputRefused(FailureCodeInvalid))
      else if input.outcome !in {ProviderFailure, TransportFailure, ProtocolFailure} then Some(FailureOutcomeRefused)
      else if input.resolvedModel.Some? && !ModelPin(input.resolvedModel.value) then
        Some(InputRefused(ResolvedModelInvalid))
      else if input.resolvedModel.Some? && input.resolvedModel.value != a.decision.body.attempt.requestedModel then
        Some(FailureModelMismatch)
      else if input.usage.Some? && !UsageOk(input.usage.value) then Some(InputRefused(UsageInvalid))
      else if input.httpStatus.Some? && !HttpStatusOk(input.httpStatus.value) then Some(InputRefused(HttpStatusInvalid))
      else if input.outcome == TransportFailure then
        if input.body.Some? || input.mediaType.Some? || input.resolvedModel.Some? || input.usage.Some?
           || input.httpStatus.Some?
        then Some(TransportHasResponse) else None
      else if input.body.None? || input.mediaType.None? || input.httpStatus.None? then Some(ResponseEvidenceMissing)
      else if input.outcome == ProviderFailure && input.httpStatus.value < 400 then Some(ProviderStatusRefused)
      else None
  }

  function FailureResponse(h: Hash, input: FailureInput): Result<Option<ContentRef>, GatewayError> {
    if input.body.None? || input.mediaType.None? then Ok(None)
    else
      match ContentReference(h, input.body.value, input.mediaType.value)
      case Err(e) => Err(e)
      case Ok(c) => Ok(Some(c))
  }

  function FailureTerminal(a: Handle, input: FailureInput, response: Option<ContentRef>, clock: CloseClock): Terminal {
    Terminal(input.outcome, true, input.resolvedModel, response, input.usage, input.httpStatus, a.dispatchedAt,
             Some(clock.terminalAt), if response.None? then None else Some(clock.terminalAt),
             Some(clock.latencyMs), Some(input.failureCode))
  }

  function Fail(h: Hash, r: Recorder, a: Handle, input: FailureInput, clock: CloseClock)
    : (Recorder, Handle, Result<Frame, GatewayError>)
    requires a.decision.IsDecision()
  {
    match FailureRefusal(a, input)
    case Some(e) => (r, a, Err(e))
    case None =>
      match FailureResponse(h, input)
      case Err(e) => (r, a, Err(e))
      case Ok(response) => Finish(h, r, a, FailureTerminal(a, input, response, clock), clock)
  }

  function Finalize(r: Recorder, at: Time): (Recorder, Option<GatewayError>) {
    if r.manifest.status != Recording then (r, None)
    else if r.openAttempts != 0 then (r, Some(OpenAttemptsRemain))
    else if r.manifest.attemptCount == 0 then (r, Some(EmptyBundle))
    else (r.(manifest := r.manifest.(status := Finalized, finalizedAt := Some(at))), None)
  }

  // ----- sessions: any interleaving of calls on any number of attempts -----

  datatype Call =
    | PrepareCall(input: PrepareInput, prepareClock: PrepareClock)
    | DispatchCall(handle: nat, at: Time)
    | SucceedCall(handle: nat, success: SuccessInput, closeClock: CloseClock)
    | FailCall(handle: nat, failure: FailureInput, closeClock: CloseClock)
    | FinalizeCall(at: Time)

  datatype Session = Session(recorder: Recorder, handles: seq<Handle>)

  ghost predicate HandlesDecide(s: Session) {
    forall k :: 0 <= k < |s.handles| ==> s.handles[k].decision.IsDecision()
  }

  function Do(h: Hash, s: Session, call: Call): Session
    requires HandlesDecide(s)
  {
    match call
    case PrepareCall(input, clock) =>
      var (r, handle) := Prepare(h, s.recorder, input, clock);
      Session(r, if handle.Ok? then s.handles + [handle.value] else s.handles)
    case DispatchCall(k, at) =>
      if k < |s.handles| then s.(handles := s.handles[k := MarkDispatched(s.handles[k], at).0]) else s
    case SucceedCall(k, input, clock) =>
      if k < |s.handles| then
        var (r, a, _) := Succeed(h, s.recorder, s.handles[k], input, clock);
        Session(r, s.handles[k := a])
      else s
    case FailCall(k, input, clock) =>
      if k < |s.handles| then
        var (r, a, _) := Fail(h, s.recorder, s.handles[k], input, clock);
        Session(r, s.handles[k := a])
      else s
    case FinalizeCall(at) => s.(recorder := Finalize(s.recorder, at).0)
  }

  lemma DoKeepsDecisions(h: Hash, s: Session, call: Call)
    requires HandlesDecide(s)
    ensures HandlesDecide(Do(h, s, call))
  {
  }

  function Play(h: Hash, s: Session, calls: seq<Call>): (out: Session)
    requires HandlesDecide(s)
    ensures HandlesDecide(out)
    decreases |calls|
  {
    if calls == [] then s
    else
      DoKeepsDecisions(h, s, calls[0]);
      Play(h, Do(h, s, calls[0]), calls[1..])
  }

  function Start(session: string, createdAt: Time): Session {
    Session(NewRecorder(session, createdAt), [])
  }
}
