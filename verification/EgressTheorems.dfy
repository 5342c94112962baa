/** What the egress dispatcher promises: at most one transport per dispatch, after an allowed decision;
    bodies released only with their recorded success; and exactly when a dispatch throws. */
module EgressTheorems {
  import opened Common
  import opened GatewayFrames
  import opened GatewayRecording
  import opened GatewayInvariant
  import opened GatewayRefusals
  import opened Egress
  import opened EgressSafety

  // ----- beginning -----

  /** The transport starts only with verified identity, an allowing policy and a configured route to the
      requested URL, and then its decision is already recorded. A refusal closes its attempt. */
  lemma BeginOutcome(h: Hash, routes: seq<Route>, s: State, q: Request, auth: Authority, clock: PrepareClock, sentAt: Time)
    ensures var (t, started) := Begin(h, routes, s, q, auth, clock, sentAt);
            var k := |s.session.handles|;
            match started
            case InFlight(handle) =>
              && handle == k && |t.session.handles| == k + 1
              && auth.identityVerified && auth.policyAllows
              && k in t.flights && t.flights[k].route in routes && t.flights[k].route.targetUrl == q.targetUrl
              && VerdictOf(t.session.handles[k]) == Some(Allowed)
              && t.session.handles[k].decision in t.session.recorder.log
              && t.sent == s.sent + [Sent(k, |t.session.recorder.log|)]
            case Ended(Threw) => t.session.handles == s.session.handles && t.sent == s.sent && t.flights == s.flights
            case Ended(Returned(d, occurrence, released)) =>
              && d == Refused && released.None? && |t.session.handles| == k + 1
              && t.session.handles[k].closed && t.session.handles[k].decision.Occurrence() == occurrence
              && t.sent == s.sent && t.flights == s.flights
  {
    hide Prepare;
    if q.requestedModel.Some? {
      var input := PrepareInputFor(q, q.requestedModel.value, auth, FindRoute(routes, q));
      PrepareAdds(h, s.session.recorder, input, clock);
    }
  }

  // ----- resuming -----

  /** A body is released only from a contract-conforming 2xx reply of the route's own URL within its size
      limit, together with the success frame that pins the body and the requested model. */
  lemma ReleasedOnlyWithSuccess(h: Hash, s: State, k: nat, reply: Reply, clock: CloseClock)
    requires HandlesDecide(s.session) && k in s.flights && k < |s.session.handles|
    ensures var (t, ending) := Resume(h, s, k, reply, clock);
            var (log, before) := (t.session.recorder.log, s.session.recorder.log);
            && (ending.Returned? && ending.released.Some? <==> ending.Returned? && ending.disposition == Completed)
            && (ending.Returned? && ending.released.Some? ==>
                  var r := ending.released.value;
                  && reply == Replied(r) && ContractOk(r) && HttpSuccess(r.status) && !r.redirected
                  && r.finalUrl == s.flights[k].route.targetUrl && |r.body| <= s.flights[k].route.maxBytes
                  && |log| == |before| + 1 && IsActionOf(log[|before|], s.session.handles[k], Success)
                  && log[|before|].body.detail.terminal.resolvedModel
                     == Some(s.session.handles[k].decision.body.attempt.requestedModel)
                  && log[|before|].body.detail.terminal.response
                     == Some(ContentRef(r.mediaType, |r.body|, h(RawBytes(r.body)), true)))
  {
    hide Fail, Succeed, ContractOk, ParseSuccessful, StatusDigits;
    var a := s.session.handles[k];
    match ClosingFor(a.decision.body.attempt.provider, s.flights[k].route, reply)
    case CloseFail(failure) => FailAdds(h, s.session.recorder, a, failure, clock);
    case CloseSucceed(success) => SucceedAdds(h, s.session.recorder, a, success, clock);
  }

  function OutcomeOf(d: Disposition): Option<Outcome> {
    match d
    case Refused => None
    case Completed => Some(Success)
    case Mismatched => Some(IdentityMismatch)
    case ProviderFailed => Some(ProviderFailure)
    case TransportFailed => Some(TransportFailure)
    case ProtocolFailed => Some(ProtocolFailure)
  }

  /** The model a usable answer resolved to; None if the reply is no usable answer of the route. */
  function Resolved(provider: string, route: Route, reply: Reply): Option<string> {
    if reply.TransportThrew? || !ContractOk(reply.response) || ProtocolFault(reply.response, route).Some?
       || !HttpSuccess(reply.response.status) || reply.response.json.None?
    then None
    else
      match ParseSuccessful(provider, reply.response.json.value)
      case None => None
      case Some((model, _)) => Some(model)
  }

  /** The replies that a dispatch reports in this way. */
  predicate Reports(d: Disposition, provider: string, requested: string, route: Route, reply: Reply) {
    var conforming := reply.Replied? && ContractOk(reply.response);
    match d
    case Refused => false
    case Completed => Resolved(provider, route, reply) == Some(requested)
    case Mismatched => Resolved(provider, route, reply).Some? && Resolved(provider, route, reply).value != requested
    case TransportFailed => !conforming
    case ProviderFailed =>
      conforming && ProtocolFault(reply.response, route).None? && !HttpSuccess(reply.response.status)
    case ProtocolFailed =>
      && conforming && Resolved(provider, route, reply).None?
      && (ProtocolFault(reply.response, route).Some? || HttpSuccess(reply.response.status))
  }

  /** What a dispatch returns is what its one new frame records, and the reply alone decides which it is. */
  lemma ReturnedAsRecorded(h: Hash, s: State, k: nat, reply: Reply, clock: CloseClock)
    requires HandlesDecide(s.session) && k in s.flights && k < |s.session.handles|
    ensures var (t, ending) := Resume(h, s, k, reply, clock);
            var (log, before, a) := (t.session.recorder.log, s.session.recorder.log, s.session.handles[k]);
            var (sent, route) := (a.decision.body.attempt, s.flights[k].route);
            ending.Returned? ==>
              && |log| == |before| + 1 && before <= log
              && OutcomeOf(ending.disposition).Some?
              && IsActionOf(log[|before|], a, OutcomeOf(ending.disposition).value)
              && forall d :: Reports(d, sent.provider, sent.requestedModel, route, reply) <==> d == ending.disposition
  {
    hide Fail, Succeed, ContractOk, ParseSuccessful, StatusDigits, ProtocolFault;
    var a := s.session.handles[k];
    match ClosingFor(a.decision.body.attempt.provider, s.flights[k].route, reply)
    case CloseFail(failure) => FailAdds(h, s.session.recorder, a, failure, clock);
    case CloseSucceed(success) => SucceedAdds(h, s.session.recorder, a, success, clock);
  }

  /** Replies that no gateway frame can carry: an informational status, a resolved model that is not
      pinned, or a usage in which a sum left the safe integers. */
  predicate NoFrameFor(provider: string, route: Route, reply: Reply) {
    && reply.Replied? && ContractOk(reply.response) && ProtocolFault(reply.response, route).None?
    && var r := reply.response;
       || r.status < 200
       || (HttpSuccess(r.status) && r.json.Some?
           && match ParseSuccessful(provider, r.json.value)
              case None => false
              case Some((model, usage)) => !ModelPin(model) || !UsageOk(usage))
  }

  function EvidenceLength(c: Closing): nat {
    match c
    case CloseFail(failure) => ResponseLength(failure)
    case CloseSucceed(success) => |success.body|
  }

  lemma TransportCodesAreStable()
    ensures StableId("upstream_transport_failure") && StableId("upstream_transport_contract_invalid")
    ensures StableId("provider_response_contract_invalid")
  {
  }

  lemma ProtocolCodesAreStable()
    ensures StableId("upstream_final_url_mismatch") && StableId("upstream_redirect_refused")
    ensures StableId("upstream_response_bytes_exceeded")
  {
  }

  lemma ProviderCodeIsStable(status: int)
    requires HttpStatusOk(status)
    ensures StableId("provider_http_" + StatusDigits(status))
  {
    StatusDigitsAreDigits(status);
    var (name, digits) := ("provider_http_", StatusDigits(status));
    assert |digits| == 3;
    hide StatusDigits;
    forall i | 1 <= i < |name + digits|
      ensures AlphaNumeric((name + digits)[i]) || (name + digits)[i] in "_.:-"
    {
      if i >= |name| { assert (name + digits)[i] == digits[i - |name|]; }
    }
  }

  lemma StatusDigitsAreDigits(status: int)
    requires HttpStatusOk(status)
    ensures forall i :: 0 <= i < |StatusDigits(status)| ==> AlphaNumeric(StatusDigits(status)[i])
  {
  }

  /** The gateway refuses the inputs of the call that ends the attempt. */
  predicate InputsRefused(a: Handle, c: Closing) {
    match c
    case CloseFail(failure) => FailureRefusal(a, failure).Some?
    case CloseSucceed(success) => SuccessRefusal(a, success).Some?
  }

  ghost predicate EvidenceOk(h: Hash, a: Handle, c: Closing) {
    match c
    case CloseFail(failure) => FailureRefusal(a, failure).None? ==> FailureResponse(h, failure).Ok?
    case CloseSucceed(success) =>
      && ContentReference(h, success.body, success.mediaType).Ok?
      && (SuccessRefusal(a, success).Some? ==> !SuccessRefusal(a, success).value.IdentityMismatchRecorded?)
  }

  /** The inputs of that call are acceptable, except for the replies above. */
  lemma ClosingAccepted(h: Hash, a: Handle, route: Route, reply: Reply)
    requires a.decision.IsDecision() && InFlightHandle(a)
    ensures var provider := a.decision.body.attempt.provider;
            && (InputsRefused(a, ClosingFor(provider, route, reply)) <==> NoFrameFor(provider, route, reply))
            && EvidenceOk(h, a, ClosingFor(provider, route, reply))
  {
    TransportCodesAreStable();
    ProtocolCodesAreStable();
    if reply.Replied? && HttpStatusOk(reply.response.status) {
      ProviderCodeIsStable(reply.response.status);
    }
    hide StableId, ModelPin, UsageOk, ParseSuccessful, StatusDigits, PrintableMediaType;
  }

  /** The clock readings at the end of dispatch k are in order, and its numbers are safe. */
  predicate EndFits(s: State, k: nat, reply: Reply, clock: CloseClock)
    requires k in s.flights && k < |s.session.handles|
  {
    var a := s.session.handles[k];
    TerminalFits(s.session.recorder, a,
                 EvidenceLength(ClosingFor(a.decision.body.attempt.provider, s.flights[k].route, reply)), clock)
  }

  datatype Leaving = LeftOpen | LeftClosed | Back

  /** Dispatch k throws with its attempt open and nothing changed; or throws with its attempt closed but
      never answered, so that the recorder can no more finalize; or returns with its attempt closed and
      one action recorded. */
  ghost predicate LeavesAs(h: Hash, s: State, k: nat, reply: Reply, clock: CloseClock, leaving: Leaving)
    requires HandlesDecide(s.session) && k in s.flights && k < |s.session.handles|
  {
    var a := s.session.handles[k];
    var (t, ending) := Resume(h, s, k, reply, clock);
    match leaving
    case LeftOpen => ending.Threw? && t.session == s.session && k in t.stuck && !a.closed
    case LeftClosed => ending.Threw? && t.session.recorder == s.session.recorder && k in t.stuck && Stuck(t.session, k)
    case Back =>
      && ending.Returned? && ending.occurrence == a.decision.Occurrence() && k !in t.stuck
      && |t.session.handles| == |s.session.handles| && t.session.handles[k].closed
      && |t.session.recorder.log| == |s.session.recorder.log| + 1
  }

  /** Which of the three it is, for every reply and every clock. */
  ghost predicate LeavesExactly(h: Hash, s: State, k: nat, reply: Reply, clock: CloseClock)
    requires HandlesDecide(s.session) && k in s.flights && k < |s.session.handles|
  {
    var unframed := NoFrameFor(s.session.handles[k].decision.body.attempt.provider, s.flights[k].route, reply);
    && (LeavesAs(h, s, k, reply, clock, LeftOpen) <==> unframed)
    && (LeavesAs(h, s, k, reply, clock, LeftClosed) <==> !unframed && !EndFits(s, k, reply, clock))
    && (LeavesAs(h, s, k, reply, clock, Back) <==> !unframed && EndFits(s, k, reply, clock))
  }

  /** A dispatch in flight leaves by exception with its attempt open exactly if no frame can carry the
      reply, by exception with its attempt closed exactly if a frame could but its readings or numbers do
      not fit, and otherwise, and only then, it returns. */
  lemma ThrowsExactly(h: Hash, s: State, k: nat, reply: Reply, clock: CloseClock)
    requires k in s.flights && k < |s.session.handles| && HandlesDecide(s.session)
    requires EgressInv(h, s)
    ensures LeavesExactly(h, s, k, reply, clock)
  {
    hide EgressInv, Resume, Fail, Succeed, ClosingFor, NoFrameFor, TerminalFits, SuccessRefusal, FailureRefusal, FailureResponse, ContentReference, RecorderInv, ActionOccurrences;
    FlightHandle(h, s, k);
    var a := s.session.handles[k];
    assert a.decision.Occurrence() !in ActionOccurrences(s.session.recorder.log);
    hide OpenHandle;
    ClosingAccepted(h, a, s.flights[k].route, reply);
    var closing := ClosingFor(a.decision.body.attempt.provider, s.flights[k].route, reply);
    assert s.session.handles[k := a] == s.session.handles;
    match closing
    case CloseFail(failure) =>
      FailEnding(h, s.session.recorder, a, failure, clock);
      ResumeByFailing(h, s, k, reply, clock, failure);
    case CloseSucceed(success) =>
      SucceedEnding(h, s.session.recorder, a, success, clock);
      ResumeBySucceeding(h, s, k, reply, clock, success);
  }

  lemma ResumeByFailing(h: Hash, s: State, k: nat, reply: Reply, clock: CloseClock, failure: FailureInput)
    requires HandlesDecide(s.session) && k in s.flights && k < |s.session.handles|
    requires ClosingFor(s.session.handles[k].decision.body.attempt.provider, s.flights[k].route, reply) == CloseFail(failure)
    ensures var a := s.session.handles[k];
            var (r, closed, out) := Fail(h, s.session.recorder, a, failure, clock);
            && Resume(h, s, k, reply, clock).0 == Land(s, k, r, closed, out.Err?)
            && (Resume(h, s, k, reply, clock).1.Threw? <==> out.Err?)
            && (out.Ok? ==> Resume(h, s, k, reply, clock).1 == Returned(FailedAs(failure.outcome), a.decision.Occurrence(), None))
  {
    hide Fail, ClosingFor, Succeed, Land;
    var a := s.session.handles[k];
    var (r, closed, out) := Fail(h, s.session.recorder, a, failure, clock);
    var after := Resume(h, s, k, reply, clock);
    assert out.Err? ==> after.1 == Threw;
    assert out.Ok? ==> after.1.Returned?;
  }

  lemma ResumeBySucceeding(h: Hash, s: State, k: nat, reply: Reply, clock: CloseClock, success: SuccessInput)
    requires HandlesDecide(s.session) && k in s.flights && k < |s.session.handles|
    requires ClosingFor(s.session.handles[k].decision.body.attempt.provider, s.flights[k].route, reply) == CloseSucceed(success)
    ensures var a := s.session.handles[k];
            var (r, closed, out) := Succeed(h, s.session.recorder, a, success, clock);
            var threw := out.Err? && !out.error.IdentityMismatchRecorded?;
            && Resume(h, s, k, reply, clock).0 == Land(s, k, r, closed, threw)
            && (Resume(h, s, k, reply, clock).1.Threw? <==> threw)
            && (!threw ==> Resume(h, s, k, reply, clock).1.occurrence == a.decision.Occurrence())
  {
    hide Succeed, ClosingFor, Fail, Land;
    var a := s.session.handles[k];
    var (r, closed, out) := Succeed(h, s.session.recorder, a, success, clock);
    var after := Resume(h, s, k, reply, clock);
    assert out.Err? && !out.error.IdentityMismatchRecorded? ==> after.1 == Threw;
    assert !(out.Err? && !out.error.IdentityMismatchRecorded?) ==> after.1.Returned?;
  }

  lemma FlightHandle(h: Hash, s: State, k: nat)
    requires EgressInv(h, s) && k in s.flights
    ensures HandlesDecide(s.session) && k < |s.session.handles| && k !in s.stuck
    ensures var a := s.session.handles[k];
            && InFlightHandle(a) && a.decision.IsDecision() && a.decision in s.session.recorder.log
            && RecorderInv(h, s.session.recorder) && OpenHandle(s.session.recorder, a)
  {
    hide RecorderInv, SentLogged, Tracked, Counted;
  }

  lemma FailEnding(h: Hash, r: Recorder, a: Handle, failure: FailureInput, clock: CloseClock)
    requires RecorderInv(h, r) && a.decision.IsDecision() && a.decision in r.log && OpenHandle(r, a)
    requires FailureRefusal(a, failure).None? ==> FailureResponse(h, failure).Ok?
    ensures var (r', a', out) := Fail(h, r, a, failure, clock);
            var fits := TerminalFits(r, a, ResponseLength(failure), clock);
            && (out.Ok? <==> !FailureRefusal(a, failure).Some? && fits)
            && (out.Err? <==> !out.Ok?)
            && (FailureRefusal(a, failure).Some? ==> r' == r && a' == a)
            && (!FailureRefusal(a, failure).Some? ==>
                  && a'.closed && a'.decision == a.decision
                  && if fits then |r'.log| == |r.log| + 1 else r' == r)
  {
    hide RecorderInv, OpenHandle, TerminalFits, FailureResponse;
    FailRefused(h, r, a, failure, clock);
    FailAdds(h, r, a, failure, clock);
    hide Fail, FailureRefusal;
    if FailureRefusal(a, failure).None? {
      FailureRecordedExactlyWhen(h, r, a, failure, clock);
    }
  }

  lemma SucceedEnding(h: Hash, r: Recorder, a: Handle, success: SuccessInput, clock: CloseClock)
    requires RecorderInv(h, r) && a.decision.IsDecision() && a.decision in r.log && OpenHandle(r, a)
    requires ContentReference(h, success.body, success.mediaType).Ok?
    requires SuccessRefusal(a, success).Some? ==> !SuccessRefusal(a, success).value.IdentityMismatchRecorded?
    ensures var (r', a', out) := Succeed(h, r, a, success, clock);
            var fits := TerminalFits(r, a, |success.body|, clock);
            && (out.Err? && !out.error.IdentityMismatchRecorded? <==> SuccessRefusal(a, success).Some? || !fits)
            && (SuccessRefusal(a, success).Some? ==> r' == r && a' == a)
            && (!SuccessRefusal(a, success).Some? ==>
                  && a'.closed && a'.decision == a.decision
                  && if fits then |r'.log| == |r.log| + 1 else r' == r)
  {
    hide RecorderInv, OpenHandle, TerminalFits, ContentReference;
    SucceedRefused(h, r, a, success, clock);
    SucceedAdds(h, r, a, success, clock);
    hide Succeed, SuccessRefusal;
    if SuccessRefusal(a, success).None? {
      SuccessRecordedExactlyWhen(h, r, a, success, clock);
    }
  }

  lemma FailRefused(h: Hash, r: Recorder, a: Handle, failure: FailureInput, clock: CloseClock)
    requires a.decision.IsDecision()
    ensures FailureRefusal(a, failure).Some? ==>
              Fail(h, r, a, failure, clock) == (r, a, Err(FailureRefusal(a, failure).value))
  {
    hide FailureRefusal, Finish;
  }

  lemma SucceedRefused(h: Hash, r: Recorder, a: Handle, success: SuccessInput, clock: CloseClock)
    requires a.decision.IsDecision()
    ensures SuccessRefusal(a, success).Some? ==>
              Succeed(h, r, a, success, clock) == (r, a, Err(SuccessRefusal(a, success).value))
  {
    hide SuccessRefusal, Finish;
  }

  // ----- runs -----

  lemma NextKeepsValid(h: Hash, routes: seq<Route>, s: State, turn: Turn)
    requires FlightsValid(s)
    ensures FlightsValid(Next(h, routes, s, turn))
  {
    hide Prepare, Fail, Succeed, FindRoute, ClosingFor;
    match turn
    case BeginTurn(q, auth, clock, sentAt) =>
      if q.requestedModel.Some? {
        var input := PrepareInputFor(q, q.requestedModel.value, auth, FindRoute(routes, q));
        PrepareAdds(h, s.session.recorder, input, clock);
      }
    case ResumeTurn(k, reply, clock) =>
      if k in s.flights {
        var a := s.session.handles[k];
        match ClosingFor(a.decision.body.attempt.provider, s.flights[k].route, reply)
        case CloseFail(failure) => FailAdds(h, s.session.recorder, a, failure, clock);
        case CloseSucceed(success) => SucceedAdds(h, s.session.recorder, a, success, clock);
      }
  }

  function Run(h: Hash, routes: seq<Route>, s: State, turns: seq<Turn>): State
    requires FlightsValid(s)
    decreases |turns|
  {
    if turns == [] then s
    else
      NextKeepsValid(h, routes, s, turns[0]);
      Run(h, routes, Next(h, routes, s, turns[0]), turns[1..])
  }

  lemma NextGrows(h: Hash, routes: seq<Route>, s: State, turn: Turn)
    requires FlightsValid(s)
    ensures s.session.recorder.log <= Next(h, routes, s, turn).session.recorder.log
  {
    hide Prepare, Fail, Succeed, FindRoute, ClosingFor;
    match turn
    case BeginTurn(q, auth, clock, sentAt) =>
      if q.requestedModel.Some? {
        PrepareGrows(h, s.session.recorder, PrepareInputFor(q, q.requestedModel.value, auth, FindRoute(routes, q)), clock);
      }
    case ResumeTurn(k, reply, clock) =>
      if k in s.flights {
        var a := s.session.handles[k];
        match ClosingFor(a.decision.body.attempt.provider, s.flights[k].route, reply)
        case CloseFail(failure) => FailAdds(h, s.session.recorder, a, failure, clock);
        case CloseSucceed(success) => SucceedAdds(h, s.session.recorder, a, success, clock);
      }
  }

  lemma PrepareGrows(h: Hash, r: Recorder, input: PrepareInput, clock: PrepareClock)
    ensures r.log <= Prepare(h, r, input, clock).0.log
  {
    hide Admit, PrepareRefusal, LineageRefusal;
    var ref := ContentReference(h, input.body, input.mediaType);
    if ref.Ok? {
      AdmitGrows(h, r, AttemptFor(input, ref.value), PolicyFor(h, input, ref.value, clock.evaluatedAt), clock);
    }
  }

  lemma {:induction false} RunGrows(h: Hash, routes: seq<Route>, s: State, turns: seq<Turn>)
    requires FlightsValid(s)
    ensures s.session.recorder.log <= Run(h, routes, s, turns).session.recorder.log
    decreases |turns|
  {
    hide Next, FlightsValid;
    if turns != [] {
      NextGrows(h, routes, s, turns[0]);
      NextKeepsValid(h, routes, s, turns[0]);
      RunGrows(h, routes, Next(h, routes, s, turns[0]), turns[1..]);
    }
  }

  lemma NextKeeps(h: Hash, routes: seq<Route>, s: State, turn: Turn)
    requires OccurrenceCollisionFree(h) && EgressInv(h, s) && FlightsValid(s)
    requires |Next(h, routes, s, turn).session.recorder.log| <= MAX_SAFE_INTEGER
    ensures EgressInv(h, Next(h, routes, s, turn))
  {
    hide EgressInv, Begin, Resume;
    match turn
    case BeginTurn(q, auth, clock, sentAt) => BeginKeeps(h, routes, s, q, auth, clock, sentAt);
    case ResumeTurn(k, reply, clock) => if k in s.flights { ResumeKeeps(h, s, k, reply, clock); }
  }

  lemma {:induction false} RunKeepsInv(h: Hash, routes: seq<Route>, s: State, turns: seq<Turn>)
    requires OccurrenceCollisionFree(h) && EgressInv(h, s) && FlightsValid(s)
    requires |Run(h, routes, s, turns).session.recorder.log| <= MAX_SAFE_INTEGER
    ensures EgressInv(h, Run(h, routes, s, turns))
    decreases |turns|
  {
    hide Next, EgressInv, FlightsValid;
    if turns != [] {
      NextKeepsValid(h, routes, s, turns[0]);
      RunGrows(h, routes, Next(h, routes, s, turns[0]), turns[1..]);
      NextKeeps(h, routes, s, turns[0]);
      RunKeepsInv(h, routes, Next(h, routes, s, turns[0]), turns[1..]);
    }
  }

  function NewState(session: string, createdAt: Time): State {
    State(Start(session, createdAt), map[], {}, [])
  }

  /** In every run of any number of interleaved dispatches: the transport runs at most once per attempt,
      only after the attempt's allowed decision was recorded, and two frames are recorded for every
      attempt but those in flight or left by an exception. */
  lemma TransportOnceAfterDecision(h: Hash, routes: seq<Route>, session: string, createdAt: Time, turns: seq<Turn>)
    requires OccurrenceCollisionFree(h) && StableId(session)
    requires |Run(h, routes, NewState(session, createdAt), turns).session.recorder.log| <= MAX_SAFE_INTEGER
    ensures var s := Run(h, routes, NewState(session, createdAt), turns);
            SentLogged(s) && Tracked(s) && Counted(s)
  {
    hide Run, SessionInv, RecorderInv;
    StartInv(h, session, createdAt);
    assert EgressInv(h, NewState(session, createdAt));
    RunKeepsInv(h, routes, NewState(session, createdAt), turns);
  }
}
