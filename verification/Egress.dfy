/** The local HTTP egress dispatcher, split at its one await: authorize and record a decision, run the
    transport, record what came back (src/http-egress.ts, src/provider-adapters.ts). */
module Egress {
  import opened Common
  import opened GatewayFrames
  import opened GatewayRecording

  datatype Route = Route(provider: string, targetUrl: string, mediaType: string, maxBytes: nat)

  /** A request, with what requestedModelFromProviderRequest makes of its body and route. */
  datatype Request = Request(
    provider: string,
    targetUrl: string,
    body: seq<bv8>,
    mediaType: string,
    requestedModel: Option<string>,
    logicalId: string,
    number: int,
    retryOf: Option<Digest>)

  /** What identity verification and policy evaluation answer, and the sorted reasons they give. */
  datatype Authority = Authority(
    identityVerified: bool,
    policyAllows: bool,
    reasonCodes: seq<string>,
    policySha: Digest)

  // ----- the provider's answer -----

  /** The fields of a provider's JSON answer that the adapters read; a number that is no safe count
      reads as absent. */
  datatype ProviderFields = ProviderFields(
    model: Option<string>,
    hasUsage: bool,
    input: Option<int>,
    output: Option<int>,
    cached: Option<int>,
    total: Option<int>,
    thoughts: Option<int>,
    cacheCreation: Option<int>,
    fiveMinute: Option<int>,
    oneHour: Option<int>)
  {
    predicate Counts() {
      && CountOk(input) && CountOk(output) && CountOk(cached) && CountOk(total)
      && CountOk(thoughts) && CountOk(cacheCreation) && CountOk(fiveMinute) && CountOk(oneHour)
    }
  }

  function Sum(a: Option<int>, b: Option<int>): Option<int> {
    match (a, b)
    case (Some(x), Some(y)) => Some(x + y)
    case (Some(x), None) => Some(x)
    case (None, y) => y
  }

  function ParsedUsage(provider: string, f: ProviderFields): Option<Usage> {
    if !f.hasUsage || f.input.None? then None
    else if provider == "openai" || provider == "xai" then
      if f.output.None? then None else Some(Usage(f.input.value, f.output.value, f.cached, None, f.total))
    else if provider == "anthropic" then
      var cacheWrite := if f.cacheCreation.Some? then f.cacheCreation else Sum(f.fiveMinute, f.oneHour);
      if f.output.None? then None else Some(Usage(f.input.value, f.output.value, f.cached, cacheWrite, None))
    else if f.total.Some? then
      Some(Usage(f.input.value, f.total.value - f.input.value, f.cached, None, f.total))
    else if f.output.Some? then
      var thoughts := if f.thoughts.Some? then f.thoughts.value else 0;
      Some(Usage(f.input.value, f.output.value + thoughts, f.cached, None, None))
    else None
  }

  /** parseSuccessfulResponse; None where it throws. */
  function ParseSuccessful(provider: string, f: ProviderFields): Option<(string, Usage)> {
    match ParsedUsage(provider, f)
    case None => None
    case Some(u) =>
      if f.model.None? || f.model.value == "" then None
      else if u.output < 0 || (u.total.Some? && u.total.value < u.input + u.output) then None
      else Some((f.model.value, u))
  }

  /** A parsed usage is refused by the recorder only because a sum of two counts is no safe integer. */
  lemma ParsedUsageOk(provider: string, f: ProviderFields)
    requires f.Counts() && ParseSuccessful(provider, f).Some?
    ensures var u := ParseSuccessful(provider, f).value.1;
            UsageOk(u) <==> SafeInteger(u.output) && CountOk(u.cacheWrite)
  {
  }

  /** What the transport hands back. `exact` says that it has just the five fields and a well-formed
      final URL; `json` is its body, if that is a JSON object. */
  datatype Response = Response(
    body: seq<bv8>,
    mediaType: string,
    status: int,
    finalUrl: string,
    redirected: bool,
    exact: bool,
    json: Option<ProviderFields>)

  datatype Reply = TransportThrew | Replied(response: Response)

  /** validateTransportResponse */
  predicate ContractOk(r: Response) {
    r.exact && r.body != [] && PrintableMediaType(r.mediaType) && HttpStatusOk(r.status)
  }

  function StatusDigits(status: int): string
    requires HttpStatusOk(status)
  {
    [('0' as int + status / 100) as char, ('0' as int + status / 10 % 10) as char, ('0' as int + status % 10) as char]
  }

  // ----- the dispatcher -----

  datatype Flight = Flight(route: Route)

  /** The transport was started for a handle, with so many frames recorded. */
  datatype Sent = Sent(handle: nat, logged: nat)

  datatype State = State(session: Session, flights: map<nat, Flight>, stuck: set<nat>, sent: seq<Sent>)

  datatype Disposition = Refused | Completed | ProviderFailed | TransportFailed | ProtocolFailed | Mismatched

  datatype Ending =
    | Returned(disposition: Disposition, occurrence: Digest, released: Option<Response>)
    | Threw

  datatype Started = InFlight(handle: nat) | Ended(ending: Ending)

  function FindRoute(routes: seq<Route>, q: Request): (r: Option<Route>)
    ensures r.Some? ==> r.value in routes && r.value.provider == q.provider && r.value.targetUrl == q.targetUrl
  {
    if routes == [] then None
    else if routes[0].provider == q.provider && routes[0].targetUrl == q.targetUrl && routes[0].mediaType == q.mediaType then
      Some(routes[0])
    else FindRoute(routes[1..], q)
  }

  /** authorize, put into the input of prepare: allowed only with identity, route and policy. */
  function PrepareInputFor(q: Request, model: string, auth: Authority, route: Option<Route>): PrepareInput {
    var allowed := auth.identityVerified && route.Some? && auth.policyAllows;
    PrepareInput(q.provider, model, q.logicalId, q.number, q.retryOf, q.body, q.mediaType,
                 if allowed then Allowed else Blocked, if allowed then None else Some(ByPolicy),
                 auth.reasonCodes, auth.policySha)
  }

  /** dispatch up to its await. */
  function Begin(h: Hash, routes: seq<Route>, s: State, q: Request, auth: Authority, clock: PrepareClock, sentAt: Time)
    : (State, Started)
  {
    if q.requestedModel.None? then (s, Ended(Threw))
    else
      var route := FindRoute(routes, q);
      var (r, prepared) := Prepare(h, s.session.recorder, PrepareInputFor(q, q.requestedModel.value, auth, route), clock);
      match prepared
      case Err(_) => (s.(session := s.session.(recorder := r)), Ended(Threw))
      case Ok(a) =>
        var k := |s.session.handles|;
        if a.censored || route.None? then
          (s.(session := Session(r, s.session.handles + [a])), Ended(Returned(Refused, a.decision.body.occurrence, None)))
        else
          (State(Session(r, s.session.handles + [MarkDispatched(a, sentAt).0]), s.flights[k := Flight(route.value)],
                 s.stuck, s.sent + [Sent(k, |r.log|)]),
           InFlight(k))
  }

  /** The protocol failure that a redirect, a foreign final URL or an oversized body is recorded as. */
  function ProtocolFault(r: Response, route: Route): Option<string> {
    if r.redirected || 300 <= r.status <= 399 || r.finalUrl != route.targetUrl then
      Some(if r.finalUrl != route.targetUrl then "upstream_final_url_mismatch" else "upstream_redirect_refused")
    else if |r.body| > route.maxBytes then Some("upstream_response_bytes_exceeded")
    else None
  }

  function ResponseFailure(outcome: Outcome, r: Response, code: string): FailureInput {
    FailureInput(outcome, Some(r.body), Some(r.mediaType), None, None, Some(r.status), code)
  }

  function TransportFault(code: string): FailureInput {
    FailureInput(TransportFailure, None, None, None, None, None, code)
  }

  /** The one gateway call that ends the attempt, as the dispatcher and the provider adapter choose it. */
  datatype Closing = CloseFail(failure: FailureInput) | CloseSucceed(success: SuccessInput)

  function ClosingFor(provider: string, route: Route, reply: Reply): Closing {
    if reply.TransportThrew? then CloseFail(TransportFault("upstream_transport_failure"))
    else
      var r := reply.response;
      if !ContractOk(r) then CloseFail(TransportFault("upstream_transport_contract_invalid"))
      else if ProtocolFault(r, route).Some? then
        CloseFail(ResponseFailure(ProtocolFailure, r, ProtocolFault(r, route).value))
      else if !HttpSuccess(r.status) then
        CloseFail(ResponseFailure(ProviderFailure, r, "provider_http_" + StatusDigits(r.status)))
      else
        var parsed := if r.json.Some? then ParseSuccessful(provider, r.json.value) else None;
        match parsed
        case None => CloseFail(ResponseFailure(ProtocolFailure, r, "provider_response_contract_invalid"))
        case Some((model, usage)) => CloseSucceed(SuccessInput(r.body, r.mediaType, model, usage, r.status))
  }

  function FailedAs(o: Outcome): Disposition {
    if o == TransportFailure then TransportFailed else if o == ProviderFailure then ProviderFailed else ProtocolFailed
  }

  function Land(s: State, k: nat, r: Recorder, a: Handle, threw: bool): State
    requires k < |s.session.handles|
  {
    State(Session(r, s.session.handles[k := a]), s.flights - {k}, if threw then s.stuck + {k} else s.stuck, s.sent)
  }

  /** dispatch from its await on. */
  function Resume(h: Hash, s: State, k: nat, reply: Reply, clock: CloseClock): (State, Ending)
    requires HandlesDecide(s.session) && k in s.flights && k < |s.session.handles|
  {
    var a := s.session.handles[k];
    var occurrence := a.decision.body.occurrence;
    match ClosingFor(a.decision.body.attempt.provider, s.flights[k].route, reply)
    case CloseFail(failure) =>
      var (r, closed, out) := Fail(h, s.session.recorder, a, failure, clock);
      (Land(s, k, r, closed, out.Err?),
       if out.Ok? then Returned(FailedAs(failure.outcome), occurrence, None) else Threw)
    case CloseSucceed(success) =>
      var (r, closed, out) := Succeed(h, s.session.recorder, a, success, clock);
      var mismatch := out.Err? && out.error.IdentityMismatchRecorded?;
      (Land(s, k, r, closed, out.Err? && !mismatch),
       if out.Ok? then Returned(Completed, occurrence, Some(reply.response))
       else if mismatch then Returned(Mismatched, occurrence, None)
       else Threw)
  }

  // ----- runs: any number of dispatches in flight -----

  datatype Turn =
    | BeginTurn(request: Request, authority: Authority, prepareClock: PrepareClock, sentAt: Time)
    | ResumeTurn(handle: nat, reply: Reply, closeClock: CloseClock)

  ghost predicate FlightsValid(s: State) {
    HandlesDecide(s.session) && forall k :: k in s.flights ==> k < |s.session.handles|
  }

  function Next(h: Hash, routes: seq<Route>, s: State, turn: Turn): State
    requires FlightsValid(s)
  {
    match turn
    case BeginTurn(q, auth, clock, sentAt) => Begin(h, routes, s, q, auth, clock, sentAt).0
    case ResumeTurn(k, reply, clock) => if k in s.flights then Resume(h, s, k, reply, clock).0 else s
  }

  // ----- the limited reader -----

  function Joined(chunks: seq<seq<bv8>>): seq<bv8> {
    if chunks == [] then [] else chunks[0] + Joined(chunks[1..])
  }

  datatype ReadError = BodyMissing | BytesExceeded

  lemma {:induction false} JoinedGrows(chunks: seq<seq<bv8>>, k: nat)
    requires k < |chunks|
    ensures Joined(chunks[..k + 1]) == Joined(chunks[..k]) + chunks[k]
  {
    if k == 0 {
      assert chunks[..1][1..] == [] && chunks[..1][0] == chunks[0];
      assert chunks[..0] == [];
    } else {
      assert chunks[..k + 1][1..] == chunks[1..][..k] && chunks[..k][1..] == chunks[1..][..k - 1];
      JoinedGrows(chunks[1..], k - 1);
      assert chunks[..k + 1][0] == chunks[0] && chunks[..k][0] == chunks[0];
    }
  }

  lemma {:induction false} JoinedLength(chunks: seq<seq<bv8>>, k: nat)
    requires k <= |chunks|
    ensures |Joined(chunks[..k])| <= |Joined(chunks)|
    decreases |chunks| - k
  {
    if k == |chunks| {
      assert chunks[..k] == chunks;
    } else {
      JoinedGrows(chunks, k);
      JoinedLength(chunks, k + 1);
    }
  }

  /** readLimitedBody: the concatenated chunks, or a refusal, decided by their total length alone. */
  method ReadLimitedBody(chunks: seq<seq<bv8>>, maximum: nat) returns (out: Result<seq<bv8>, ReadError>)
    ensures out == if |Joined(chunks)| > maximum then Err(BytesExceeded)
                   else if |Joined(chunks)| == 0 then Err(BodyMissing)
                   else Ok(Joined(chunks))
  {
    var total := 0;
    var kept: seq<seq<bv8>> := [];
    for k := 0 to |chunks|
      invariant kept == chunks[..k] && total == |Joined(kept)| <= maximum
    {
      JoinedGrows(chunks, k);
      JoinedLength(chunks, k + 1);
      total := total + |chunks[k]|;
      if total > maximum { return Err(BytesExceeded); }
      kept := kept + [chunks[k]];
    }
    assert chunks[..|chunks|] == chunks;
    if total == 0 { return Err(BodyMissing); }
    var output := new bv8[total];
    var offset := 0;
    for k := 0 to |kept|
      invariant offset == |Joined(kept[..k])| <= total
      invariant output[..offset] == Joined(kept[..k])
      invariant fresh(output)
    {
      JoinedGrows(kept, k);
      JoinedLength(kept, k + 1);
      var chunk := kept[k];
      ghost var before := output[..offset];
      forall i | 0 <= i < |chunk| {
        output[offset + i] := chunk[i];
      }
      assert output[..offset] == before;
      offset := offset + |chunk|;
      assert output[..offset] == before + chunk;
    }
    assert kept[..|kept|] == kept;
    assert output[..] == output[..offset];
    return Ok(output[..]);
  }
}
