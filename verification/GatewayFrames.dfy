/** Evidence frames of the model gateway and the checks one frame must pass on its own
    (src/gateway.ts: gatewayFrameBlockers, gatewayPolicyBlockers, gatewayActionBlockers). */
module GatewayFrames {
  import opened Common

  datatype Verdict = Allowed | Blocked

  datatype Censor = ByPolicy | ByBudget

  datatype Outcome =
    | Success
    | ProviderFailure
    | TransportFailure
    | ProtocolFailure
    | IdentityMismatch
    | PolicyCensored
    | BudgetCensored

  datatype ContentRef = ContentRef(mediaType: string, byteLength: int, sha: Digest, digestOnly: bool)

  datatype Usage = Usage(
    input: int,
    output: int,
    cacheRead: Option<int>,
    cacheWrite: Option<int>,
    total: Option<int>)

  /** What a decision and its action both carry about one attempt. */
  datatype Attempt = Attempt(
    provider: string,
    requestedModel: string,
    logicalId: string,
    number: int,
    retryOf: Option<Digest>,
    request: ContentRef)

  datatype OccurrenceBody = OccurrenceBody(
    provider: string,
    requestedModel: string,
    logicalId: string,
    number: int,
    retryOf: Option<Digest>,
    requestSha: Digest)

  datatype PolicyBody = PolicyBody(
    provider: string,
    requestedModel: string,
    logicalId: string,
    number: int,
    requestSha: Digest,
    verdict: Verdict,
    censor: Option<Censor>,
    reasonCodes: seq<string>,
    policySha: Digest,
    evaluatedAt: Time)

  datatype Policy = Policy(body: PolicyBody, receiptSha: Digest)

  datatype Terminal = Terminal(
    outcome: Outcome,
    dispatchOccurred: bool,
    resolvedModel: Option<string>,
    response: Option<ContentRef>,
    usage: Option<Usage>,
    httpStatus: Option<int>,
    dispatchStartedAt: Option<Time>,
    terminalObservedAt: Option<Time>,
    responseReceivedAt: Option<Time>,
    latencyMs: Option<int>,
    failureCode: Option<string>)

  datatype Detail =
    | Decision(policy: Policy)
    | Action(policyReceiptSha: Digest, terminal: Terminal)

  datatype FrameBody = FrameBody(
    session: string,
    sequence: int,
    observedAt: Time,
    attempt: Attempt,
    occurrence: Digest,
    detail: Detail,
    previous: Digest)

  datatype Frame = Frame(body: FrameBody, sha: Digest) {
    predicate IsDecision() { body.detail.Decision? }

    predicate IsAction() { body.detail.Action? }

    function Occurrence(): Digest { body.occurrence }

    predicate IsMismatch() { IsAction() && body.detail.terminal.outcome == IdentityMismatch }
  }

  /** Everything the gateway hashes. Bodies are hashed as they come, so a body may be the canonical text of
      a record and share its digest. */
  datatype Hashed =
    | OccurrenceContent(occurrence: OccurrenceBody)
    | PolicyContent(policy: PolicyBody)
    | FrameContent(frame: FrameBody)
    | RawBytes(bytes: seq<bv8>)

  type Hash = Hashed -> Digest

  /** Two attempts with one occurrence digest are one occurrence. */
  ghost predicate OccurrenceCollisionFree(h: Hash) {
    forall a, b :: h(OccurrenceContent(a)) == h(OccurrenceContent(b)) ==> a == b
  }

  /** Two frames with one digest are one frame. */
  ghost predicate FrameCollisionFree(h: Hash) {
    forall a, b :: h(FrameContent(a)) == h(FrameContent(b)) ==> a == b
  }

  function OccurrenceOf(a: Attempt): OccurrenceBody {
    OccurrenceBody(a.provider, a.requestedModel, a.logicalId, a.number, a.retryOf, a.request.sha)
  }

  function OccurrenceSha(h: Hash, a: Attempt): Digest {
    h(OccurrenceContent(OccurrenceOf(a)))
  }

  predicate KnownProvider(p: string) {
    || p in {"anthropic", "openai", "xai", "gemini"}
    || (&& 8 <= |p| <= 87
        && p[..7] == "custom:"
        && AlphaNumeric(p[7])
        && forall i :: 8 <= i < |p| ==> AlphaNumeric(p[i]) || p[i] in "_.-")
  }

  predicate ModelSeparator(c: char) { c in "._:/-" }

  function Lower(c: char): char {
    if 'A' <= c <= 'Z' then (c as int + 32) as char else c
  }

  function LowerAll(s: string): string {
    seq(|s|, i requires 0 <= i < |s| => Lower(s[i]))
  }

  /** Some separator-delimited part of the name is a moving alias such as "latest". */
  predicate NamesAlias(s: string) {
    exists i, j | 0 <= i <= j <= |s| ::
      && (i == 0 || ModelSeparator(s[i - 1]))
      && (j == |s| || ModelSeparator(s[j]))
      && LowerAll(s[i..j]) in {"latest", "current", "default", "auto"}
  }

  predicate ModelPin(s: string) {
    && 1 <= |s| <= 200
    && AlphaNumeric(s[0])
    && (forall i :: 1 <= i < |s| ==> AlphaNumeric(s[i]) || ModelSeparator(s[i]))
    && (exists i :: 0 <= i < |s| && '0' <= s[i] <= '9')
    && !NamesAlias(s)
  }

  predicate CountOk(n: Option<int>) {
    n.Some? ==> SafeInteger(n.value) && 0 <= n.value
  }

  predicate UsageOk(u: Usage) {
    && SafeInteger(u.input) && 0 <= u.input
    && SafeInteger(u.output) && 0 <= u.output
    && CountOk(u.cacheRead) && CountOk(u.cacheWrite) && CountOk(u.total)
    && (u.total.Some? ==> u.input + u.output <= u.total.value)
  }

  predicate HttpStatusOk(status: int) { 100 <= status <= 599 }

  predicate HttpSuccess(status: int) { 200 <= status <= 299 }

  predicate ContentOk(c: ContentRef) {
    PrintableMediaType(c.mediaType) && SafeInteger(c.byteLength) && 0 <= c.byteLength
  }

  predicate ReasonCodesOk(codes: seq<string>) {
    codes != [] && StrictlyOrdered(codes) && forall i :: 0 <= i < |codes| ==> StableId(codes[i])
  }

  predicate Censored(o: Outcome) { o == PolicyCensored || o == BudgetCensored }

  function CensorOutcome(p: PolicyBody): Outcome {
    if p.censor == Some(ByBudget) then BudgetCensored else PolicyCensored
  }

  function HeadOf(log: seq<Frame>): Digest {
    if log == [] then GENESIS else log[|log| - 1].sha
  }

  function DecisionOccurrences(log: seq<Frame>): set<Digest> {
    set i | 0 <= i < |log| && log[i].IsDecision() :: log[i].Occurrence()
  }

  function ActionOccurrences(log: seq<Frame>): set<Digest> {
    set i | 0 <= i < |log| && log[i].IsAction() :: log[i].Occurrence()
  }

  datatype FrameIssue =
    | SessionIdInvalid | ProviderInvalid | ModelNotPinned | LogicalIdInvalid
    | SequenceInvalid | AttemptNumberInvalid | FirstAttemptHasParent | RetryParentMissing
    | RequestInvalid | RawRequestRetained | OccurrenceMismatch | FrameDigestMismatch
    | PolicyBindingMismatch | PolicyTimingInvalid | ReasonCodesInvalid
    | AllowedHasCensor | BlockedCensorMissing | PolicyReceiptMismatch
    | ResolvedModelInvalid | ResponseInvalid | RawResponseRetained | UsageInvalid
    | HttpStatusInvalid | FailureCodeInvalid | CensorShapeInvalid
    | DispatchTimingMissing | DispatchTimingInvalid | ResponseTimingInvalid
    | SuccessShapeInvalid | MismatchShapeInvalid | TransportShapeInvalid
    | ProviderShapeInvalid | ProtocolShapeInvalid | ResolvedModelMismatch

  predicate PolicyRaises(h: Hash, issue: FrameIssue, b: FrameBody, p: Policy) {
    match issue
    case PolicyBindingMismatch =>
      || p.body.provider != b.attempt.provider
      || p.body.requestedModel != b.attempt.requestedModel
      || p.body.logicalId != b.attempt.logicalId
      || p.body.number != b.attempt.number
      || p.body.requestSha != b.attempt.request.sha
    case PolicyTimingInvalid => p.body.evaluatedAt > b.observedAt
    case ReasonCodesInvalid => !ReasonCodesOk(p.body.reasonCodes)
    case AllowedHasCensor => p.body.verdict == Allowed && p.body.censor.Some?
    case BlockedCensorMissing => p.body.verdict == Blocked && p.body.censor.None?
    case PolicyReceiptMismatch => p.receiptSha != h(PolicyContent(p.body))
    case _ => false
  }

  predicate ActionRaises(issue: FrameIssue, b: FrameBody, t: Terminal) {
    match issue
    case ResolvedModelInvalid => t.resolvedModel.Some? && !ModelPin(t.resolvedModel.value)
    case ResponseInvalid => t.response.Some? && !ContentOk(t.response.value)
    case RawResponseRetained => t.response.Some? && !t.response.value.digestOnly
    case UsageInvalid => t.usage.Some? && !UsageOk(t.usage.value)
    case HttpStatusInvalid => t.httpStatus.Some? && !HttpStatusOk(t.httpStatus.value)
    case FailureCodeInvalid => t.failureCode.Some? && !StableId(t.failureCode.value)
    case CensorShapeInvalid =>
      && Censored(t.outcome)
      && (|| t.dispatchOccurred || t.resolvedModel.Some? || t.response.Some? || t.usage.Some?
          || t.httpStatus.Some? || t.dispatchStartedAt.Some? || t.terminalObservedAt.Some?
          || t.responseReceivedAt.Some? || t.latencyMs.Some? || t.failureCode.None?)
    case DispatchTimingMissing =>
      && !Censored(t.outcome)
      && (|| !t.dispatchOccurred || t.dispatchStartedAt.None? || t.terminalObservedAt.None?
          || t.latencyMs.None? || !SafeInteger(t.latencyMs.value) || t.latencyMs.value < 0)
    case DispatchTimingInvalid =>
      && !Censored(t.outcome)
      && t.dispatchStartedAt.Some? && t.terminalObservedAt.Some?
      && (t.dispatchStartedAt.value > t.terminalObservedAt.value || t.terminalObservedAt.value > b.observedAt)
    case ResponseTimingInvalid =>
      && !Censored(t.outcome)
      && (|| (t.response.None? && t.responseReceivedAt.Some?)
          || (t.response.Some? && t.responseReceivedAt != t.terminalObservedAt))
    case SuccessShapeInvalid =>
      && t.outcome == Success
      && (|| t.resolvedModel != Some(b.attempt.requestedModel) || t.response.None? || t.usage.None?
          || t.httpStatus.None? || !HttpSuccess(t.httpStatus.value) || t.failureCode.Some?)
    case MismatchShapeInvalid =>
      && t.outcome == IdentityMismatch
      && (|| t.resolvedModel.None? || t.resolvedModel == Some(b.attempt.requestedModel)
          || t.response.None? || t.usage.None?
          || t.httpStatus.None? || !HttpSuccess(t.httpStatus.value)
          || t.failureCode != Some("resolved_model_identity_mismatch"))
    case TransportShapeInvalid =>
      && t.outcome == TransportFailure
      && (|| t.resolvedModel.Some? || t.response.Some? || t.usage.Some? || t.httpStatus.Some?
          || t.failureCode.None?)
    case ProviderShapeInvalid =>
      && t.outcome == ProviderFailure
      && (t.response.None? || t.httpStatus.None? || t.httpStatus.value < 400 || t.failureCode.None?)
    case ProtocolShapeInvalid =>
      && t.outcome == ProtocolFailure
      && (t.response.None? || t.httpStatus.None? || t.failureCode.None?)
    case ResolvedModelMismatch =>
      && t.resolvedModel.Some?
      && t.outcome != IdentityMismatch
      && t.resolvedModel.value != b.attempt.requestedModel
    case _ => false
  }

  predicate CommonRaises(h: Hash, issue: FrameIssue, f: Frame) {
    var a := f.body.attempt;
    match issue
    // The four identity assertions share one try block, so only the first failure is reported.
    case SessionIdInvalid => !StableId(f.body.session)
    case ProviderInvalid => StableId(f.body.session) && !KnownProvider(a.provider)
    case ModelNotPinned =>
      StableId(f.body.session) && KnownProvider(a.provider) && !ModelPin(a.requestedModel)
    case LogicalIdInvalid =>
      && StableId(f.body.session) && KnownProvider(a.provider) && ModelPin(a.requestedModel)
      && !StableId(a.logicalId)
    case SequenceInvalid => !SafeInteger(f.body.sequence) || f.body.sequence < 0
    case AttemptNumberInvalid => !SafeInteger(a.number) || a.number < 1
    case FirstAttemptHasParent => a.number == 1 && a.retryOf.Some?
    case RetryParentMissing => a.number > 1 && a.retryOf.None?
    case RequestInvalid => !ContentOk(a.request)
    case RawRequestRetained => !a.request.digestOnly
    case OccurrenceMismatch => f.body.occurrence != OccurrenceSha(h, a)
    case FrameDigestMismatch => f.sha != h(FrameContent(f.body))
    case _ => false
  }

  predicate Raises(h: Hash, issue: FrameIssue, f: Frame) {
    || CommonRaises(h, issue, f)
    || match f.body.detail
       case Decision(p) => PolicyRaises(h, issue, f.body, p)
       case Action(_, t) => ActionRaises(issue, f.body, t)
  }

  function FrameIssues(h: Hash, f: Frame): set<FrameIssue> {
    set issue: FrameIssue | Raises(h, issue, f)
  }

  ghost predicate Clean(h: Hash, f: Frame) {
    forall issue :: !Raises(h, issue, f)
  }

  lemma CleanMeansNoIssues(h: Hash, f: Frame)
    ensures Clean(h, f) <==> FrameIssues(h, f) == {}
  {
    if FrameIssues(h, f) == {} {
      forall issue
        ensures !Raises(h, issue, f)
      {
        assert issue !in FrameIssues(h, f);
      }
    }
  }
}
