/** What a dispatch records, field by field, of its request and of every kind of reply
    (src/http-egress.ts, src/provider-adapters.ts). */
module EgressContents {
  import opened Common
  import opened GatewayFrames
  import opened GatewayRecording
  import opened GatewayInvariant
  import opened GatewayContents
  import opened Egress
  import opened EgressSafety

  // ----- the answer of a provider -----

  function OrZero(n: Option<int>): int { if n.Some? then n.value else 0 }

  /** An answer with a model and consistent counts of the tokens that went in and came out. */
  predicate Usable(provider: string, f: ProviderFields) {
    && f.model.Some? && f.model.value != "" && f.hasUsage && f.input.Some?
    && if provider == "openai" || provider == "xai" then
         f.output.Some? && (f.total.Some? ==> f.input.value + f.output.value <= f.total.value)
       else if provider == "anthropic" then f.output.Some?
       else if f.total.Some? then f.input.value <= f.total.value
       else f.output.Some?
  }

  /** The recorded usage, from the counts of the answer. */
  predicate UsageHolds(provider: string, f: ProviderFields, u: Usage) {
    && Some(u.input) == f.input && u.cacheRead == f.cached
    && if provider == "openai" || provider == "xai" then
         Some(u.output) == f.output && u.cacheWrite.None? && u.total == f.total
       else if provider == "anthropic" then
         && Some(u.output) == f.output && u.total.None?
         && (f.cacheCreation.Some? ==> u.cacheWrite == f.cacheCreation)
         && (f.cacheCreation.None? ==>
               u.cacheWrite == if f.fiveMinute.None? && f.oneHour.None? then None
                               else Some(OrZero(f.fiveMinute) + OrZero(f.oneHour)))
       else
         && u.total == f.total && u.cacheWrite.None?
         && (f.total.Some? ==> u.input + u.output == f.total.value)
         && (f.total.None? ==> f.output.Some? && u.output == f.output.value + OrZero(f.thoughts))
  }

  lemma ParsedHolds(provider: string, f: ProviderFields)
    requires f.Counts()
    ensures ParseSuccessful(provider, f).Some? <==> Usable(provider, f)
    ensures Usable(provider, f) ==>
              && f.model == Some(ParseSuccessful(provider, f).value.0)
              && UsageHolds(provider, f, ParseSuccessful(provider, f).value.1)
  {
  }

  // ----- the end of a dispatch -----

  /** The five fields are there and well-formed. */
  predicate Conforming(r: Response) {
    && r.exact && |r.body| > 0 && 1 <= |r.mediaType| <= 200 && 100 <= r.status <= 599
    && forall i :: 0 <= i < |r.mediaType| ==> 32 <= r.mediaType[i] as int <= 126
  }

  /** The decimal digits of a status. */
  predicate Digits(digits: string, status: int) {
    && |digits| == 3 && (forall i :: 0 <= i < 3 ==> '0' <= digits[i] <= '9')
    && status == 100 * (digits[0] as int - 48) + 10 * (digits[1] as int - 48) + (digits[2] as int - 48)
  }

  predicate Failed(t: Terminal, outcome: Outcome, code: string) {
    t.outcome == outcome && t.failureCode == Some(code) && t.resolvedModel.None? && t.usage.None?
  }

  /** The terminal of a failure that keeps the response as a digest. */
  predicate FailedWith(h: Hash, t: Terminal, r: Response, outcome: Outcome, code: string) {
    Failed(t, outcome, code) && t.httpStatus == Some(r.status) && ResponseHolds(h, t.response, r.body, r.mediaType)
  }

  /** The terminal of a failure without a response. */
  predicate FailedWithout(t: Terminal, code: string) {
    Failed(t, TransportFailure, code) && t.httpStatus.None? && t.response.None?
  }

  /** The terminal of a usable answer. */
  predicate Answered(h: Hash, provider: string, requested: string, r: Response, f: ProviderFields, d: Disposition, t: Terminal) {
    && d == (if f.model == Some(requested) then Completed else Mismatched)
    && t.outcome == (if f.model == Some(requested) then Success else IdentityMismatch)
    && t.failureCode == (if f.model == Some(requested) then None else Some("resolved_model_identity_mismatch"))
    && t.resolvedModel == f.model && t.usage.Some? && UsageHolds(provider, f, t.usage.value)
    && t.httpStatus == Some(r.status) && ResponseHolds(h, t.response, r.body, r.mediaType)
  }

  /** What is returned and recorded of a reply of the transport. */
  predicate ReplyHolds(h: Hash, provider: string, requested: string, route: Route, reply: Reply, d: Disposition, t: Terminal) {
    match reply
    case TransportThrew => d == TransportFailed && FailedWithout(t, "upstream_transport_failure")
    case Replied(r) =>
      if !Conforming(r) then d == TransportFailed && FailedWithout(t, "upstream_transport_contract_invalid")
      else if r.finalUrl != route.targetUrl then
        d == ProtocolFailed && FailedWith(h, t, r, ProtocolFailure, "upstream_final_url_mismatch")
      else if r.redirected || 300 <= r.status <= 399 then
        d == ProtocolFailed && FailedWith(h, t, r, ProtocolFailure, "upstream_redirect_refused")
      else if route.maxBytes < |r.body| then
        d == ProtocolFailed && FailedWith(h, t, r, ProtocolFailure, "upstream_response_bytes_exceeded")
      else if r.status < 200 || 299 < r.status then
        && d == ProviderFailed && t.failureCode.Some? && FailedWith(h, t, r, ProviderFailure, t.failureCode.value)
        && |t.failureCode.value| == 17 && t.failureCode.value[..14] == "provider_http_"
        && Digits(t.failureCode.value[14..], r.status)
      else if r.json.None? || !Usable(provider, r.json.value) then
        d == ProtocolFailed && FailedWith(h, t, r, ProtocolFailure, "provider_response_contract_invalid")
      else Answered(h, provider, requested, r, r.json.value, d, t)
  }

  /** The numbers of a provider's answer are counts. */
  predicate CountsGiven(reply: Reply) {
    reply.Replied? && reply.response.json.Some? ==> reply.response.json.value.Counts()
  }

  lemma ConformingIsContractOk(r: Response)
    ensures ContractOk(r) <==> Conforming(r)
  {
  }

  lemma DigitsShown(status: int)
    requires HttpStatusOk(status)
    ensures Digits(StatusDigits(status), status)
    ensures var code := "provider_http_" + StatusDigits(status);
            |code| == 17 && code[..14] == "provider_http_" && Digits(code[14..], status)
  {
    var (name, digits) := ("provider_http_", StatusDigits(status));
    var (a, b, c) := (status / 100, status / 10 % 10, status % 10);
    assert 100 * a + 10 * b + c == status;
    assert |name| == 14 && |digits| == 3;
    hide StatusDigits;
    assert (name + digits)[..14] == name && (name + digits)[14..] == digits;
  }

  /** Whether a call of the gateway that ends the attempt carries what the reply says. */
  predicate ClosingHolds(provider: string, route: Route, reply: Reply, c: Closing) {
    match reply
    case TransportThrew => c == CloseFail(TransportFault("upstream_transport_failure"))
    case Replied(r) =>
      if !Conforming(r) then c == CloseFail(TransportFault("upstream_transport_contract_invalid"))
      else if r.finalUrl != route.targetUrl then c == CloseFail(ResponseFailure(ProtocolFailure, r, "upstream_final_url_mismatch"))
      else if r.redirected || 300 <= r.status <= 399 then
        c == CloseFail(ResponseFailure(ProtocolFailure, r, "upstream_redirect_refused"))
      else if route.maxBytes < |r.body| then
        c == CloseFail(ResponseFailure(ProtocolFailure, r, "upstream_response_bytes_exceeded"))
      else if r.status < 200 || 299 < r.status then
        c == CloseFail(ResponseFailure(ProviderFailure, r, "provider_http_" + StatusDigits(r.status)))
      else if r.json.None? || !Usable(provider, r.json.value) then
        c == CloseFail(ResponseFailure(ProtocolFailure, r, "provider_response_contract_invalid"))
      else
        && c.CloseSucceed? && c.success.body == r.body && c.success.mediaType == r.mediaType
        && c.success.httpStatus == r.status && Some(c.success.resolvedModel) == r.json.value.model
        && UsageHolds(provider, r.json.value, c.success.usage)
  }

  lemma ClosingForHolds(provider: string, route: Route, reply: Reply)
    requires CountsGiven(reply)
    ensures ClosingHolds(provider, route, reply, ClosingFor(provider, route, reply))
  {
    hide ContractOk, Conforming, ParseSuccessful, Usable, UsageHolds, StatusDigits, ProtocolFault;
    if reply.Replied? {
      var r := reply.response;
      ConformingIsContractOk(r);
      if r.json.Some? { ParsedHolds(provider, r.json.value); }
      FaultNamed(r, route);
    }
  }

  lemma FaultNamed(r: Response, route: Route)
    ensures ProtocolFault(r, route) ==
              if r.finalUrl != route.targetUrl then Some("upstream_final_url_mismatch")
              else if r.redirected || 300 <= r.status <= 399 then Some("upstream_redirect_refused")
              else if route.maxBytes < |r.body| then Some("upstream_response_bytes_exceeded")
              else None
  {
  }

  /** A dispatch that returns: the reply alone decides the disposition and the recorded frame, field by field;
      a body is handed back with a completed one only. */
  lemma ReplyRecorded(h: Hash, s: State, k: nat, reply: Reply, clock: CloseClock)
    requires HandlesDecide(s.session) && k in s.flights && k < |s.session.handles|
    requires CountersAgree(h, s.session.recorder) && CountsGiven(reply)
    ensures var (t, ending) := Resume(h, s, k, reply, clock);
            var (a, n) := (s.session.handles[k], |s.session.recorder.log|);
            ending.Returned? ==>
              && |t.session.recorder.log| == n + 1 && EndingHolds(h, s.session.recorder, t.session.recorder.log, a, clock)
              && ReplyHolds(h, a.decision.body.attempt.provider, a.decision.body.attempt.requestedModel, s.flights[k].route,
                            reply, ending.disposition, t.session.recorder.log[n].body.detail.terminal)
              && ending.occurrence == a.decision.body.occurrence
              && ending.released == (if ending.disposition == Completed then Some(reply.response) else None)
  {
    var a := s.session.handles[k];
    var (r, attempt, route) := (s.session.recorder, a.decision.body.attempt, s.flights[k].route);
    hide CountersAgree, Fail, Succeed, ClosingFor, EndingHolds, ReplyHolds;
    ClosingForHolds(attempt.provider, route, reply);
    match ClosingFor(attempt.provider, route, reply)
    case CloseFail(failure) =>
      FailedFrame(h, r, a, failure, clock);
      FailAdds(h, r, a, failure, clock);
      var (r', a', out) := Fail(h, r, a, failure, clock);
      if out.Ok? {
        FailureHolds(h, attempt.provider, attempt.requestedModel, route, reply, failure, r'.log[|r.log|].body.detail.terminal);
      }
    case CloseSucceed(success) =>
      SucceededFrame(h, r, a, success, clock);
      SucceedAdds(h, r, a, success, clock);
      var (r', a', out) := Succeed(h, r, a, success, clock);
      if |r'.log| != |r.log| {
        SuccessHolds(h, attempt.provider, attempt.requestedModel, route, reply, success, r'.log[|r.log|].body.detail.terminal);
      }
  }

  lemma FailureHolds(h: Hash, provider: string, requested: string, route: Route, reply: Reply, failure: FailureInput, t: Terminal)
    requires ClosingHolds(provider, route, reply, CloseFail(failure))
    requires t.outcome == failure.outcome && t.resolvedModel == failure.resolvedModel && t.usage == failure.usage
    requires t.httpStatus == failure.httpStatus && t.failureCode == Some(failure.failureCode)
    requires if failure.body.Some? && failure.mediaType.Some?
             then ResponseHolds(h, t.response, failure.body.value, failure.mediaType.value)
             else t.response.None?
    ensures ReplyHolds(h, provider, requested, route, reply, FailedAs(failure.outcome), t)
    ensures FailedAs(failure.outcome) != Completed
  {
    hide Conforming, Usable, UsageHolds, StatusDigits, ResponseHolds, Digits, Answered;
    if reply.Replied? {
      ConformingStatus(reply.response);
      if HttpStatusOk(reply.response.status) { DigitsShown(reply.response.status); }
    }
  }

  lemma ConformingStatus(r: Response)
    ensures Conforming(r) ==> HttpStatusOk(r.status)
  {
  }

  lemma SuccessHolds(h: Hash, provider: string, requested: string, route: Route, reply: Reply, success: SuccessInput, t: Terminal)
    requires ClosingHolds(provider, route, reply, CloseSucceed(success))
    requires var same := success.resolvedModel == requested;
             && t.outcome == (if same then Success else IdentityMismatch)
             && t.failureCode == (if same then None else Some("resolved_model_identity_mismatch"))
    requires t.resolvedModel == Some(success.resolvedModel) && t.usage == Some(success.usage)
    requires t.httpStatus == Some(success.httpStatus) && ResponseHolds(h, t.response, success.body, success.mediaType)
    ensures reply.Replied?
    ensures ReplyHolds(h, provider, requested, route, reply, if success.resolvedModel == requested then Completed else Mismatched, t)
  {
    hide Conforming, Usable, UsageHolds, ResponseHolds, Digits, FailedWith, FailedWithout;
  }

  // ----- the start of a dispatch -----

  /** The route for a request: same provider, target and media type. */
  predicate Routed(q: Request, route: Route) {
    route.provider == q.provider && route.targetUrl == q.targetUrl && route.mediaType == q.mediaType
  }

  lemma {:induction false} RouteFound(routes: seq<Route>, q: Request)
    ensures FindRoute(routes, q).Some? <==> exists i :: 0 <= i < |routes| && Routed(q, routes[i])
    ensures FindRoute(routes, q).Some? ==>
              exists i :: 0 <= i < |routes| && routes[i] == FindRoute(routes, q).value && Routed(q, routes[i])
                       && forall j :: 0 <= j < i ==> !Routed(q, routes[j])
  {
    if routes != [] {
      if Routed(q, routes[0]) {
        assert routes[0] == FindRoute(routes, q).value;
      } else {
        RouteFound(routes[1..], q);
        if FindRoute(routes, q).Some? {
          var i :| 0 <= i < |routes| - 1 && routes[1..][i] == FindRoute(routes, q).value && Routed(q, routes[1..][i])
                   && forall j :: 0 <= j < i ==> !Routed(q, routes[1..][j]);
          forall j | 0 <= j < i + 1
            ensures !Routed(q, routes[j])
          {
            if j > 0 { assert routes[j] == routes[1..][j - 1]; }
          }
          assert routes[i + 1] == FindRoute(routes, q).value;
        }
        forall i | 0 <= i < |routes| && Routed(q, routes[i])
          ensures FindRoute(routes, q).Some?
        {
          assert routes[1..][i - 1] == routes[i];
        }
      }
    }
  }

  /** What a dispatch of a request prepares: its verdict is allowed only with identity, route and policy, and
      otherwise the policy is what censors it. */
  predicate Asked(q: Request, auth: Authority, allowed: bool, input: PrepareInput) {
    && input.provider == q.provider && Some(input.requestedModel) == q.requestedModel
    && input.logicalId == q.logicalId && input.number == q.number && input.retryOf == q.retryOf
    && input.body == q.body && input.mediaType == q.mediaType
    && (input.verdict == Allowed <==> allowed) && (input.verdict == Blocked <==> !allowed)
    && input.censor == (if allowed then None else Some(ByPolicy))
    && input.reasonCodes == auth.reasonCodes && input.policySha == auth.policySha
  }

  /** A dispatch that records its decision: what the decision says, and whether the transport starts. */
  lemma RequestRecorded(h: Hash, routes: seq<Route>, s: State, q: Request, auth: Authority, clock: PrepareClock, sentAt: Time)
      returns (input: PrepareInput)
    requires CountersAgree(h, s.session.recorder)
    ensures var (t, started) := Begin(h, routes, s, q, auth, clock, sentAt);
            var (log, n, k) := (t.session.recorder.log, |s.session.recorder.log|, |s.session.handles|);
            var allowed := auth.identityVerified && auth.policyAllows
                           && exists i :: 0 <= i < |routes| && Routed(q, routes[i]);
            started != Ended(Threw) ==>
              && q.requestedModel.Some? && Asked(q, auth, allowed, input)
              && |log| == n + (if allowed then 1 else 2)
              && s.session.recorder.log <= log && Linked(h, s.session.recorder.manifest.session, log, n)
              && log[n].body.observedAt == clock.decisionAt && AttemptHolds(h, log[n].body.attempt, input)
              && log[n].body.detail.Decision? && PolicyHolds(h, log[n].body.detail.policy, input, clock.evaluatedAt)
              && (started.InFlight? <==> allowed)
              && (started.InFlight? ==>
                    && t.sent == s.sent + [Sent(k, n + 1)] && |t.session.handles| == k + 1
                    && t.session.handles[k].dispatchedAt == Some(sentAt)
                    && k in t.flights && Routed(q, t.flights[k].route))
              && (started.Ended? ==> started.ending == Returned(Refused, log[n].body.occurrence, None) && t.sent == s.sent)
  {
    hide CountersAgree, Prepare, FindRoute, AttemptHolds, PolicyHolds, Linked, BlockedFrame, Accounts;
    RouteFound(routes, q);
    var route := FindRoute(routes, q);
    var model := if q.requestedModel.Some? then q.requestedModel.value else "";
    input := PrepareInputFor(q, model, auth, route);
    VerdictKinds(input.verdict);
    var prepared := Prepare(h, s.session.recorder, input, clock);
    if prepared.1.Ok? { PreparedFrames(h, s.session.recorder, input, clock); }
  }

  lemma VerdictKinds(v: Verdict)
    ensures v == Allowed || v == Blocked
  {
    assert v.Allowed? || v.Blocked?;
  }
}
