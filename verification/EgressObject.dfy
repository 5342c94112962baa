/** The dispatcher as the object it is: dispatch drives one mutable attempt of a shared recorder, in two
    halves around its await, each proved to be the step Egress describes (src/http-egress.ts). */
module EgressObject {
  import opened Common
  import opened GatewayFrames
  import Calls = GatewayRecording
  import Objects = GatewayObjects
  import opened Egress

  /** The dispatcher's view of one dispatch: the recorder, and the attempt it holds, if any. */
  function OneDispatch(r: Calls.Recorder, handles: seq<Calls.Handle>, flights: map<nat, Flight>): State {
    State(Calls.Session(r, handles), flights, {}, [])
  }

  class LocalHttpEgressDispatcher {
    const routes: seq<Route>
    const recorder: Objects.GatewayRecorder

    constructor (routes: seq<Route>, hash: Hash, session: string, createdAt: Time)
      ensures this.routes == routes && recorder.hash == hash && recorder.State() == Calls.NewRecorder(session, createdAt)
      ensures fresh(recorder) && fresh(recorder.frameChain)
    {
      this.routes := routes;
      recorder := new Objects.GatewayRecorder(hash, session, createdAt);
    }

    /** Up to the transport. */
    method BeginDispatch(q: Request, auth: Authority, clock: Calls.PrepareClock, sentAt: Time)
      returns (started: Started, attempt: Option<Objects.GatewayAttempt>, route: Option<Route>)
      modifies recorder, recorder.frameChain
      ensures var (t, expected) := Begin(recorder.hash, routes, OneDispatch(old(recorder.State()), [], map[]), q, auth, clock, sentAt);
              && started == expected && recorder.State() == t.session.recorder
              && (started.InFlight? ==>
                    && attempt.Some? && fresh(attempt.value) && attempt.value.recorder == recorder
                    && attempt.value.State() == t.session.handles[0]
                    && route.Some? && t.flights == map[0 := Flight(route.value)])
    {
      hide Calls.Prepare;
      attempt := None;
      if q.requestedModel.None? { return Ended(Threw), None, None; }
      route := FindRoute(routes, q);
      var allowed := auth.identityVerified && route.Some? && auth.policyAllows;
      var input := Calls.PrepareInput(q.provider, q.requestedModel.value, q.logicalId, q.number, q.retryOf, q.body, q.mediaType,
                                      if allowed then Allowed else Blocked, if allowed then None else Some(ByPolicy),
                                      auth.reasonCodes, auth.policySha);
      assert input == PrepareInputFor(q, q.requestedModel.value, auth, route);
      var prepared := recorder.Prepare(input, clock);
      if prepared.Err? { return Ended(Threw), None, route; }
      var a := prepared.value;
      if a.censored || route.None? {
        return Ended(Returned(Refused, a.decision.body.occurrence, None)), None, route;
      }
      var refused := a.MarkDispatched(sentAt);
      return InFlight(0), Some(a), route;
    }

    /** From the transport's reply on. */
    method ResumeDispatch(attempt: Objects.GatewayAttempt, route: Route, reply: Reply, clock: Calls.CloseClock) returns (ending: Ending)
      requires attempt.recorder == recorder && attempt.decision.IsDecision()
      modifies attempt, recorder, recorder.frameChain
      ensures var (t, expected) := Resume(recorder.hash, OneDispatch(old(recorder.State()), [old(attempt.State())], map[0 := Flight(route)]),
                                          0, reply, clock);
              ending == expected && recorder.State() == t.session.recorder && attempt.State() == t.session.handles[0]
    {
      hide Calls.Fail, Calls.Succeed, ClosingFor;
      var closing := ChooseClosing(attempt.decision.body.attempt.provider, route, reply);
      var occurrence := attempt.decision.body.occurrence;
      match closing {
        case CloseFail(failure) =>
          var acted := attempt.Fail(failure, clock);
          ending := if acted.Ok? then Returned(FailedAs(failure.outcome), occurrence, None) else Threw;
        case CloseSucceed(success) =>
          var acted := attempt.Succeed(success, clock);
          if acted.Ok? {
            ending := Returned(Completed, occurrence, Some(reply.response));
          } else if acted.error.IdentityMismatchRecorded? {
            ending := Returned(Mismatched, occurrence, None);
          } else {
            ending := Threw;
          }
      }
    }

    /** The checks on the reply, in the dispatcher's order. */
    method ChooseClosing(provider: string, route: Route, reply: Reply) returns (closing: Closing)
      ensures closing == ClosingFor(provider, route, reply)
      ensures closing.CloseSucceed? ==> reply.Replied?
    {
      hide ParseSuccessful, StatusDigits, ContractOk;
      if reply.TransportThrew? { return CloseFail(TransportFault("upstream_transport_failure")); }
      var r := reply.response;
      if !ContractOk(r) { return CloseFail(TransportFault("upstream_transport_contract_invalid")); }
      if r.redirected || 300 <= r.status <= 399 || r.finalUrl != route.targetUrl {
        var code := if r.finalUrl != route.targetUrl then "upstream_final_url_mismatch" else "upstream_redirect_refused";
        return CloseFail(ResponseFailure(ProtocolFailure, r, code));
      }
      if |r.body| > route.maxBytes { return CloseFail(ResponseFailure(ProtocolFailure, r, "upstream_response_bytes_exceeded")); }
      if r.status < 200 || r.status > 299 {
        assert HttpStatusOk(r.status) by { ContractStatus(r); }
        return CloseFail(ResponseFailure(ProviderFailure, r, "provider_http_" + StatusDigits(r.status)));
      }
      var parsed := if r.json.Some? then ParseSuccessful(provider, r.json.value) else None;
      if parsed.None? { return CloseFail(ResponseFailure(ProtocolFailure, r, "provider_response_contract_invalid")); }
      return CloseSucceed(SuccessInput(r, parsed.value));
    }

    function SuccessInput(r: Response, parsed: (string, Usage)): Calls.SuccessInput {
      Calls.SuccessInput(r.body, r.mediaType, parsed.0, parsed.1, r.status)
    }
  }

  lemma ContractStatus(r: Response)
    requires ContractOk(r)
    ensures HttpStatusOk(r.status)
  {
  }
}
