/** Sessions and dispatches that run into the conditions proved elsewhere: a clock that steps back, and a
    reply that no frame can carry (src/gateway.ts, src/http-egress.ts). */
module GatewayInstances {
  import opened Common
  import opened GatewayFrames
  import opened GatewayRecording
  import opened GatewayInvariant
  import opened GatewayVerifier
  import opened GatewayTheorems
  import opened GatewayRefusals
  import opened SampleRequests
  import opened Egress
  import opened EgressSafety
  import opened EgressTheorems

  // ----- a finalized session that the verifier blocks -----

  const BLOCKED_CODES := [BOUNDARY_CODE, CONFIGURATION_CODE, "workload_identity_refused"]

  const BLOCKED_INPUT := PrepareInput("openai", "1", "call-1", 1, None, MODEL_BODY, "application/json", Blocked, Some(ByPolicy),
                                      BLOCKED_CODES, 0)

  lemma BlockedCodesPass()
    ensures ReasonCodesOk(BLOCKED_CODES)
  {
    DigestCodesAreStable();
    IdentityCodeIsStable();
    UnitDecides(BLOCKED_CODES[0], BLOCKED_CODES[1], 0);
    UnitDecides(BLOCKED_CODES[1], BLOCKED_CODES[2], 0);
    hide StableId, Precedes;
  }

  lemma IdentityCodeIsStable()
    ensures StableId("workload_identity_refused") && StableId("call-1")
  {
  }

  lemma BlockedInputPasses(h: Hash, session: string, createdAt: Time)
    ensures PrepareAccepted(h, NewRecorder(session, createdAt), BLOCKED_INPUT)
  {
    BlockedCodesPass();
    IdentityCodeIsStable();
    ModelOneIsPinned();
    JsonIsPrintable();
    hide StableId, ReasonCodesOk, ModelPin, PrintableMediaType;
  }

  /** The two frames of a blocked attempt carry the readings they were given. */
  lemma BlockedFrames(h: Hash, r: Recorder, input: PrepareInput, clock: PrepareClock)
    requires CountersAgree(h, r) && PrepareAccepted(h, r, input) && input.verdict == Blocked
    requires PrepareFits(r, input, clock) && |r.log| < MAX_SAFE_INTEGER
    ensures var r' := Prepare(h, r, input, clock).0;
            && |r'.log| == |r.log| + 2 && r.log <= r'.log
            && r'.log[|r.log|].body.observedAt == clock.decisionAt && r'.log[|r.log| + 1].body.observedAt == clock.actionAt
            && r'.openAttempts == r.openAttempts && r'.manifest.status == Recording
            && r'.manifest.attemptCount == r.manifest.attemptCount + 1
  {
    hide StableId, Chained, Clean, FrameIssues;
    DecisionFrameClean(h, r, input, clock);
    var ref := ContentReference(h, input.body, input.mediaType).value;
    var (a, policy) := (AttemptFor(input, ref), PolicyFor(h, input, ref, clock.evaluatedAt));
    EmitAppends(h, r, clock.decisionAt, a, Decision(policy));
    var (r1, decided) := Emit(h, r, clock.decisionAt, a, Decision(policy));
    hide Emit, LineageRefusal, PrepareRefusal;
    var r2 := Remember(r1, a, decided.value.body.occurrence);
    CensoredFrameClean(h, r2, input, clock);
    EmitAppends(h, r2, clock.actionAt, a, Action(policy.receiptSha, CensoredTerminal(policy.body)));
  }

  /** The clock stepped back between the two frames of a blocked attempt: the recorder finalizes, and the
      verifier blocks the bundle. */
  lemma ClockStepBackIsBlocked(h: Hash, session: string, createdAt: Time, clock: PrepareClock, at: Time)
    requires StableId(session) && clock.evaluatedAt <= clock.decisionAt && clock.actionAt < clock.decisionAt
    ensures var r := Play(h, Start(session, createdAt), [PrepareCall(BLOCKED_INPUT, clock), FinalizeCall(at)]).recorder;
            && r.manifest.status == Finalized && !ClockOrdered(r.manifest, r.log)
            && Blocks(h, r.manifest, r.log, TimestampRegressed(1))
  {
    hide StableId, Prepare, Raises;
    var r0 := NewRecorder(session, createdAt);
    assert CountersAgree(h, r0);
    BlockedInputPasses(h, session, createdAt);
    hide PrepareAccepted, CountersAgree;
    BlockedFrames(h, r0, BLOCKED_INPUT, clock);
    var (prepare, finish) := (PrepareCall(BLOCKED_INPUT, clock), FinalizeCall(at));
    var s1 := Do(h, Start(session, createdAt), prepare);
    DoKeepsDecisions(h, Start(session, createdAt), prepare);
    var s2 := Do(h, s1, finish);
    TwoCalls(h, Start(session, createdAt), prepare, finish);
    hide Play, Do;
    var r := s2.recorder;
    assert r.log[1].body.observedAt < r.log[0].body.observedAt;
    assert ChainBlocks(h, r.manifest, r.log, 1, TimestampRegressed(1));
    assert NewlyBlocks(h, r.manifest, r.log, 1, TimestampRegressed(1));
  }

  lemma TwoCalls(h: Hash, s: Session, a: Call, b: Call)
    requires HandlesDecide(s)
    ensures HandlesDecide(Do(h, s, a)) && Play(h, s, [a, b]) == Do(h, Do(h, s, a), b)
  {
    hide Do;
    DoKeepsDecisions(h, s, a);
    DoKeepsDecisions(h, Do(h, s, a), b);
    var none: seq<Call>, last: seq<Call> := [], [b];
    assert [a, b][1..] == last && last[1..] == none;
    assert Play(h, Do(h, Do(h, s, a), b), none) == Do(h, Do(h, s, a), b);
    assert Play(h, Do(h, s, a), last) == Do(h, Do(h, s, a), b);
  }

  // ----- dispatches that leave by exception -----

  const TARGET := "https://api.openai.com/v1/responses"

  const ROUTE := Route("openai", TARGET, "application/json", 1000)

  const ROUTED := Request("openai", TARGET, MODEL_BODY, "application/json", Some("1"), "call-1", 1, None)

  const ALLOWED_CODES := [
    "authority_scopes_allowed", BOUNDARY_CODE, CONFIGURATION_CODE, "model_route_allowed", "request_limits_allowed", IDENTITY_CODE]

  const ALLOWING := Authority(true, true, ALLOWED_CODES, 0)

  lemma AllowedCodesPass()
    ensures ReasonCodesOk(ALLOWED_CODES)
  {
    DigestCodesAreStable();
    AllowedWordsAreStable();
    UnitDecides(ALLOWED_CODES[0], ALLOWED_CODES[1], 0);
    UnitDecides(ALLOWED_CODES[1], ALLOWED_CODES[2], 0);
    UnitDecides(ALLOWED_CODES[2], ALLOWED_CODES[3], 0);
    UnitDecides(ALLOWED_CODES[3], ALLOWED_CODES[4], 0);
    UnitDecides(ALLOWED_CODES[4], ALLOWED_CODES[5], 0);
    hide StableId, Precedes;
  }

  lemma AllowedWordsAreStable()
    ensures StableId("authority_scopes_allowed") && StableId("model_route_allowed") && StableId("request_limits_allowed")
  {
  }

  const IN_ORDER := PrepareClock(2, 2, 2)

  lemma RoutedIsAccepted(h: Hash, session: string)
    ensures FindRoute([ROUTE], ROUTED) == Some(ROUTE)
    ensures PrepareAccepted(h, NewRecorder(session, 1), PrepareInputFor(ROUTED, "1", ALLOWING, Some(ROUTE)))
  {
    AllowedCodesPass();
    IdentityCodeIsStable();
    ModelOneIsPinned();
    JsonIsPrintable();
    hide StableId, ReasonCodesOk, ModelPin, PrintableMediaType;
  }

  lemma SendingInFlight(h: Hash, session: string)
    requires OccurrenceCollisionFree(h) && StableId(session)
    ensures var s := Begin(h, [ROUTE], NewState(session, 1), ROUTED, ALLOWING, IN_ORDER, 3).0;
            && EgressInv(h, s) && HandlesDecide(s.session) && |s.session.handles| == 1
            && 0 in s.flights && s.flights[0].route == ROUTE && s.session.handles[0].dispatchedAt == Some(3)
  {
    hide StableId, Prepare, PrepareAccepted, EgressInv, FindRoute;
    var s0 := NewState(session, 1);
    var (input, clock) := (PrepareInputFor(ROUTED, "1", ALLOWING, Some(ROUTE)), IN_ORDER);
    RoutedIsAccepted(h, session);
    NewStateIsEgress(h, session);
    assert CountersAgree(h, s0.session.recorder);
    hide CountersAgree;
    PrepareRecordedExactlyWhen(h, s0.session.recorder, input, clock);
    PrepareAdds(h, s0.session.recorder, input, clock);
    BeginKeeps(h, [ROUTE], s0, ROUTED, ALLOWING, clock, 3);
  }

  lemma NewStateIsEgress(h: Hash, session: string)
    requires StableId(session)
    ensures EgressInv(h, NewState(session, 1))
  {
    hide SessionInv;
    StartInv(h, session, 1);
  }

  /** The reply 103, as it comes from a route. */
  function EarlyHints(route: Route): Reply {
    Replied(Response([0], "application/json", 103, route.targetUrl, false, true, None))
  }

  lemma EarlyHintsHaveNoFrame(provider: string, route: Route)
    requires route.maxBytes >= 1
    ensures NoFrameFor(provider, route, EarlyHints(route))
  {
    JsonIsPrintable();
  }

  /** Every dispatch in flight that gets it leaves its attempt open, whatever the clock. */
  lemma EarlyHintsLeaveOpen(h: Hash, s: State, k: nat, clock: CloseClock)
    requires EgressInv(h, s) && k in s.flights && k < |s.session.handles| && HandlesDecide(s.session)
    requires s.flights[k].route.maxBytes >= 1
    ensures LeavesAs(h, s, k, EarlyHints(s.flights[k].route), clock, LeftOpen)
  {
    var route := s.flights[k].route;
    EarlyHintsHaveNoFrame(s.session.handles[k].decision.body.attempt.provider, route);
    hide EgressInv, LeavesAs, EndFits, NoFrameFor, EarlyHints;
    ThrowsExactly(h, s, k, EarlyHints(route), clock);
  }

  /** If the wall clock stepped back while the transport ran, the attempt is closed and never answered. */
  lemma StepBackLeavesUnanswered(h: Hash, s: State, k: nat, clock: CloseClock)
    requires EgressInv(h, s) && k in s.flights && k < |s.session.handles| && HandlesDecide(s.session)
    requires s.session.handles[k].dispatchedAt.Some? && clock.terminalAt < s.session.handles[k].dispatchedAt.value
    ensures LeavesAs(h, s, k, TransportThrew, clock, LeftClosed)
  {
    hide EgressInv, LeavesAs;
    ThrowsExactly(h, s, k, TransportThrew, clock);
  }

  /** Both happen to the first dispatch of a session. */
  lemma FirstDispatchLeaves(h: Hash, session: string, clock: CloseClock)
    requires OccurrenceCollisionFree(h) && StableId(session)
    ensures var s := Begin(h, [ROUTE], NewState(session, 1), ROUTED, ALLOWING, IN_ORDER, 3).0;
            && HandlesDecide(s.session) && 0 in s.flights && |s.session.handles| == 1
            && LeavesAs(h, s, 0, EarlyHints(ROUTE), clock, LeftOpen)
            && LeavesAs(h, s, 0, TransportThrew, CloseClock(2, 2, 0), LeftClosed)
  {
    SendingInFlight(h, session);
    hide Begin, EgressInv, LeavesAs, StableId, EarlyHints;
    var s := Begin(h, [ROUTE], NewState(session, 1), ROUTED, ALLOWING, IN_ORDER, 3).0;
    EarlyHintsLeaveOpen(h, s, 0, clock);
    StepBackLeavesUnanswered(h, s, 0, CloseClock(2, 2, 0));
  }
}
