/** When native requests are refused, and when they are refused for good: their ids come from a counter that
    only an accepted native request moves, while explicit envelopes choose their ids freely
    (src/credentialless-runtime.ts). */
module LoopbackNatives {
  import opened Common
  import opened GatewayFrames
  import opened GatewayRecording
  import opened GatewayInvariant
  import opened GatewayRefusals
  import opened SampleRequests
  import opened Egress
  import opened EgressSafety
  import opened EgressTheorems
  import opened Loopback

  // ----- every decision belongs to an attempt -----

  predicate HeldBy(s: Session, f: Frame) {
    exists k :: 0 <= k < |s.handles| && s.handles[k].decision == f
  }

  ghost predicate DecisionsHeld(s: Session) {
    forall i :: 0 <= i < |s.recorder.log| && s.recorder.log[i].IsDecision() ==> HeldBy(s, s.recorder.log[i])
  }

  /** The log grew by actions and, if there is a new attempt, by its decision. */
  predicate GrewBy(log: seq<Frame>, grown: seq<Frame>, decision: Option<Frame>) {
    && log <= grown
    && forall i :: |log| <= i < |grown| && grown[i].IsDecision() ==> decision == Some(grown[i])
  }

  lemma HeldGrows(s: Session, t: Session, decision: Option<Frame>)
    requires DecisionsHeld(s) && GrewBy(s.recorder.log, t.recorder.log, decision)
    requires |s.handles| <= |t.handles|
    requires forall k :: 0 <= k < |s.handles| ==> t.handles[k].decision == s.handles[k].decision
    requires decision.Some? ==> HeldBy(t, decision.value)
    ensures DecisionsHeld(t)
  {
    forall i | 0 <= i < |t.recorder.log| && t.recorder.log[i].IsDecision()
      ensures HeldBy(t, t.recorder.log[i])
    {
      if i < |s.recorder.log| {
        assert t.recorder.log[i] == s.recorder.log[i];
        var k :| 0 <= k < |s.handles| && s.handles[k].decision == s.recorder.log[i];
        assert t.handles[k].decision == t.recorder.log[i];
      }
    }
  }

  lemma EmitStatus(h: Hash, r: Recorder, at: Time, a: Attempt, detail: Detail)
    ensures Emit(h, r, at, a, detail).0.manifest.status == r.manifest.status
  {
    hide FrameIssues;
  }

  lemma AdmitFrames(h: Hash, r: Recorder, a: Attempt, policy: Policy, clock: PrepareClock)
    ensures var (r', out) := Admit(h, r, a, policy, clock);
            && r'.manifest.status == r.manifest.status
            && (out.Ok? ==> GrewBy(r.log, r'.log, Some(out.value.decision)))
  {
    hide Emit;
    var detail := Decision(policy);
    var (r1, decided) := Emit(h, r, clock.decisionAt, a, detail);
    EmitAdds(h, r, clock.decisionAt, a, detail);
    EmitStatus(h, r, clock.decisionAt, a, detail);
    if decided.Ok? {
      var r2 := Remember(r1, a, decided.value.body.occurrence);
      EmitAdds(h, r2, clock.actionAt, a, Action(policy.receiptSha, CensoredTerminal(policy.body)));
      EmitStatus(h, r2, clock.actionAt, a, Action(policy.receiptSha, CensoredTerminal(policy.body)));
    }
  }

  lemma PrepareFrames(h: Hash, r: Recorder, input: PrepareInput, clock: PrepareClock)
    ensures var (r', out) := Prepare(h, r, input, clock);
            && r'.manifest.status == r.manifest.status
            && (out.Ok? ==> GrewBy(r.log, r'.log, Some(out.value.decision)))
  {
    hide Admit, PrepareRefusal, LineageRefusal;
    var ref := ContentReference(h, input.body, input.mediaType);
    if ref.Ok? {
      AdmitFrames(h, r, AttemptFor(input, ref.value), PolicyFor(h, input, ref.value, clock.evaluatedAt), clock);
    }
  }

  lemma BeginHolds(h: Hash, routes: seq<Route>, s: State, q: Request, auth: Authority, clock: PrepareClock, sentAt: Time)
    requires OccurrenceCollisionFree(h) && SessionInv(h, s.session) && DecisionsHeld(s.session)
    requires |Begin(h, routes, s, q, auth, clock, sentAt).0.session.recorder.log| <= MAX_SAFE_INTEGER
    ensures var t := Begin(h, routes, s, q, auth, clock, sentAt).0;
            DecisionsHeld(t.session) && t.session.recorder.manifest.status == s.session.recorder.manifest.status
  {
    hide SessionInv, Prepare, FindRoute, DecisionsHeld, GrewBy;
    var t := Begin(h, routes, s, q, auth, clock, sentAt).0;
    if q.requestedModel.Some? {
      var input := PrepareInputFor(q, q.requestedModel.value, auth, FindRoute(routes, q));
      hide PrepareInputFor;
      PrepareKeeps(h, s.session, input, clock);
      PrepareFrames(h, s.session.recorder, input, clock);
      var (r, prepared) := Prepare(h, s.session.recorder, input, clock);
      if prepared.Ok? {
        var n := |s.session.handles|;
        assert t.session.handles[n].decision == prepared.value.decision;
        HeldGrows(s.session, t.session, Some(prepared.value.decision));
      } else {
        assert t.session == s.session;
      }
    }
  }

  lemma FinishStatus(h: Hash, r: Recorder, a: Handle, t: Terminal, clock: CloseClock)
    requires a.decision.IsDecision()
    ensures Finish(h, r, a, t, clock).0.manifest.status == r.manifest.status
  {
    hide Emit;
    EmitStatus(h, r, clock.observedAt, a.decision.body.attempt, Action(a.decision.body.detail.policy.receiptSha, t));
  }

  lemma FailFrames(h: Hash, r: Recorder, a: Handle, input: FailureInput, clock: CloseClock)
    requires a.decision.IsDecision()
    ensures var (r', a', _) := Fail(h, r, a, input, clock);
            GrewBy(r.log, r'.log, None) && a'.decision == a.decision && r'.manifest.status == r.manifest.status
  {
    FailAdds(h, r, a, input, clock);
    FailSplits(h, r, a, input, clock);
    hide Fail, Finish, FailureRefusal, FailureResponse;
    var ref := FailureResponse(h, input);
    if FailureRefusal(a, input).None? && ref.Ok? { FinishStatus(h, r, a, FailureTerminal(a, input, ref.value, clock), clock); }
  }

  lemma SucceedFrames(h: Hash, r: Recorder, a: Handle, input: SuccessInput, clock: CloseClock)
    requires a.decision.IsDecision()
    ensures var (r', a', _) := Succeed(h, r, a, input, clock);
            GrewBy(r.log, r'.log, None) && a'.decision == a.decision && r'.manifest.status == r.manifest.status
  {
    SucceedAdds(h, r, a, input, clock);
    SucceedSplits(h, r, a, input, clock);
    hide Succeed, Finish, SuccessRefusal, ContentReference;
    var ref := ContentReference(h, input.body, input.mediaType);
    if SuccessRefusal(a, input).None? && ref.Ok? { FinishStatus(h, r, a, SuccessTerminal(a, input, ref.value, clock), clock); }
  }

  lemma ResumeHolds(h: Hash, s: State, k: nat, reply: Reply, clock: CloseClock)
    requires HandlesDecide(s.session) && k in s.flights && k < |s.session.handles| && DecisionsHeld(s.session)
    ensures var t := Resume(h, s, k, reply, clock).0;
            DecisionsHeld(t.session) && t.session.recorder.manifest.status == s.session.recorder.manifest.status
  {
    hide Fail, Succeed, ClosingFor, DecisionsHeld, GrewBy;
    var a := s.session.handles[k];
    match ClosingFor(a.decision.body.attempt.provider, s.flights[k].route, reply) {
      case CloseFail(failure) => FailFrames(h, s.session.recorder, a, failure, clock);
      case CloseSucceed(success) => SucceedFrames(h, s.session.recorder, a, success, clock);
    }
    var t := Resume(h, s, k, reply, clock).0;
    HeldGrows(s.session, t.session, None);
  }

  // ----- a gateway at work -----

  /** What holds of the gateway from its start, whatever requests come and go. */
  ghost predicate Serving(h: Hash, g: Gateway) {
    && FlightsValid(g.egress) && GatewayInv(h, g) && DecisionsHeld(g.egress.session)
    && g.egress.session.recorder.manifest.status == Recording
  }

  lemma NextServes(h: Hash, routes: seq<Route>, g: Gateway, turn: Loopback.Turn)
    requires OccurrenceCollisionFree(h) && Serving(h, g)
    requires |Loopback.Next(h, routes, g, turn).egress.session.recorder.log| <= MAX_SAFE_INTEGER
    ensures Serving(h, Loopback.Next(h, routes, g, turn))
  {
    hide EgressInv, NativesHold, CountsAgree, FlightsValid, Begin, Resume, Named, DecisionsHeld, Loopback.Next;
    Loopback.NextKeepsValid(h, routes, g, turn);
    Loopback.NextKeeps(h, routes, g, turn);
    ServingSession(h, g);
    match turn
    case Arrive(Readable(kind, q, auth, clock, sentAt)) =>
      ArriveStep(h, routes, g, kind, q, auth, clock, sentAt);
      BeginHolds(h, routes, g.egress, Named(g, kind, q), auth, clock, sentAt);
    case Land(k, reply, clock) =>
      LandStep(h, routes, g, k, reply, clock);
      if k in g.waiting && k in g.egress.flights {
        FlightNotStuck(h, g.egress, k);
        ResumeHolds(h, g.egress, k, reply, clock);
      }
    case _ => QuietTurn(h, routes, g, turn);
  }

  lemma ServingSession(h: Hash, g: Gateway)
    requires EgressInv(h, g.egress)
    ensures SessionInv(h, g.egress.session)
  {
    hide SessionInv;
  }

  lemma QuietTurn(h: Hash, routes: seq<Route>, g: Gateway, turn: Loopback.Turn)
    requires FlightsValid(g.egress) && turn.Arrive? && !turn.arrival.Readable?
    ensures var t := Loopback.Next(h, routes, g, turn);
            && t.egress == g.egress && t.waiting == g.waiting && t.left == g.left && t.runtimeId == g.runtimeId
            && t.counters.nativeProvider == g.counters.nativeProvider
  {
    hide Begin, Resume;
  }

  lemma NewGatewayServes(h: Hash, session: string, createdAt: Time, runtimeId: string)
    requires StableId(session)
    ensures Serving(h, NewGateway(session, createdAt, runtimeId))
  {
    NewGatewayInv(h, session, createdAt, runtimeId);
    hide GatewayInv;
  }

  lemma {:induction false} RunServes(h: Hash, routes: seq<Route>, g: Gateway, turns: seq<Loopback.Turn>)
    requires OccurrenceCollisionFree(h) && Serving(h, g)
    requires |Loopback.Run(h, routes, g, turns).egress.session.recorder.log| <= MAX_SAFE_INTEGER
    ensures Serving(h, Loopback.Run(h, routes, g, turns))
    decreases |turns|
  {
    hide Loopback.Next, GatewayInv, DecisionsHeld;
    if turns != [] {
      Loopback.NextKeepsValid(h, routes, g, turns[0]);
      Loopback.RunGrows(h, routes, Loopback.Next(h, routes, g, turns[0]), turns[1..]);
      NextServes(h, routes, g, turns[0]);
      RunServes(h, routes, Loopback.Next(h, routes, g, turns[0]), turns[1..]);
    }
  }

  // ----- when a native request is refused for its id -----

  lemma NativeIdTaken(h: Hash, g: Gateway)
    requires Serving(h, g)
    ensures 1 in PriorAttempts(g.egress.session.recorder, NativeId(g)) <==> exists k: nat :: HoldsNativeId(g, k)
  {
    hide CountersAgree, AccountsAgree, Answered, Lineage, Distinct, OpenHandle, NativeId, CountsAgree, SentLogged, Counted, Tracked,
         FlightsOpen, NativesHold;
    var (r, id) := (g.egress.session.recorder, NativeId(g));
    if k: nat :| HoldsNativeId(g, k) {
      var i :| 0 <= i < |r.log| && r.log[i] == g.egress.session.handles[k].decision;
      assert Recalls(r.logical, r.log[i]);
    }
    if 1 in PriorAttempts(r, id) {
      assert Records(r.log, id, 1);
      var i :| 0 <= i < |r.log| && r.log[i].IsDecision() && r.log[i].body.attempt.logicalId == id && r.log[i].body.attempt.number == 1;
      var k :| 0 <= k < |g.egress.session.handles| && g.egress.session.handles[k].decision == r.log[i];
      assert HoldsNativeId(g, k);
    }
  }

  lemma AdmitIsNoDuplicate(h: Hash, r: Recorder, a: Attempt, policy: Policy, clock: PrepareClock)
    ensures Admit(h, r, a, policy, clock).1 != Err(AttemptDuplicate)
  {
    hide FrameIssues, NextFrame;
  }

  /** A native request whose content passes is refused as a duplicate exactly if some attempt, native or
      explicit, in flight, left or long ended, was recorded as attempt 1 under the next native id. */
  lemma NativeRefusedExactly(h: Hash, routes: seq<Route>, g: Gateway, q: Request, auth: Authority, clock: PrepareClock)
    requires Serving(h, g) && q.requestedModel.Some?
    requires var input := PrepareInputFor(Named(g, Native, q), q.requestedModel.value, auth, FindRoute(routes, Named(g, Native, q)));
             PrepareRefusal(input).None? && ContentReference(h, input.body, input.mediaType).Ok?
    ensures var input := PrepareInputFor(Named(g, Native, q), q.requestedModel.value, auth, FindRoute(routes, Named(g, Native, q)));
            var (r, out) := Prepare(h, g.egress.session.recorder, input, clock);
            && (out == Err(AttemptDuplicate) <==> exists k: nat :: HoldsNativeId(g, k))
            && (out == Err(AttemptDuplicate) ==> r == g.egress.session.recorder)
  {
    NativeIdTaken(h, g);
    hide FindRoute, GatewayInv, DecisionsHeld, NativeId, HoldsNativeId, Admit, ContentReference, PrepareRefusal;
    var named := Named(g, Native, q);
    var input := PrepareInputFor(named, q.requestedModel.value, auth, FindRoute(routes, named));
    var ref := ContentReference(h, input.body, input.mediaType).value;
    AdmitIsNoDuplicate(h, g.egress.session.recorder, AttemptFor(input, ref), PolicyFor(h, input, ref, clock.evaluatedAt), clock);
  }

  // ----- when native requests are refused for good -----

  predicate NativeInFlight(g: Gateway, k: nat) { k in g.waiting && g.waiting[k] == Native }

  /** An attempt that is no native one in flight holds the next native id. */
  ghost predicate HeldForGood(g: Gateway) {
    exists k: nat :: HoldsNativeId(g, k) && !NativeInFlight(g, k)
  }

  ghost predicate NativesBlocked(g: Gateway) { HeldForGood(g) || !StableId(NativeId(g)) }

  /** Whatever happens afterwards, no native request is accepted again. */
  ghost predicate Wedged(h: Hash, routes: seq<Route>, g: Gateway)
    requires FlightsValid(g.egress)
  {
    forall turns: seq<Loopback.Turn> :: |Loopback.Run(h, routes, g, turns).egress.session.recorder.log| <= MAX_SAFE_INTEGER ==>
      Loopback.Run(h, routes, g, turns).counters.nativeProvider == g.counters.nativeProvider
  }

  lemma InFlightHolds(h: Hash, g: Gateway, k: nat)
    requires GatewayInv(h, g) && NativeInFlight(g, k)
    ensures HoldsNativeId(g, k)
  {
    hide EgressInv, CountsAgree, HoldsNativeId;
    assert k in Natives(g);
  }

  lemma HolderIsStable(h: Hash, g: Gateway, k: nat)
    requires GatewayInv(h, g) && HoldsNativeId(g, k)
    ensures StableId(NativeId(g))
  {
    hide LogSound, AccountsAgree, NativeId, CountsAgree, SentLogged, Counted, Tracked, FlightsOpen, NativesHold, StableId,
         KnownProvider, ModelPin, PolicyRaises, ActionRaises;
    var r := g.egress.session.recorder;
    var i :| 0 <= i < |r.log| && r.log[i] == g.egress.session.handles[k].decision;
    ChainedOccurrence(h, r.manifest.session, r.log, i);
    hide Chained;
    assert !Raises(h, SessionIdInvalid, r.log[i]) && !Raises(h, ProviderInvalid, r.log[i]);
    assert !Raises(h, ModelNotPinned, r.log[i]) && !Raises(h, LogicalIdInvalid, r.log[i]);
  }

  lemma OneHolder(h: Hash, g: Gateway, j: nat, k: nat)
    requires GatewayInv(h, g) && HoldsNativeId(g, j) && HoldsNativeId(g, k)
    ensures j == k
  {
    hide SessionInv, SentLogged, Counted, Tracked, FlightsOpen, NativeId, CountsAgree, NativesHold;
    if j != k { HandlesDifferById(h, g.egress.session, j, k); }
  }

  /** If natives are blocked, none is in flight. */
  lemma BlockedMeansNoneInFlight(h: Hash, g: Gateway, k: nat)
    requires GatewayInv(h, g) && NativesBlocked(g)
    ensures !NativeInFlight(g, k)
  {
    hide GatewayInv, HoldsNativeId, NativeId, StableId;
    if NativeInFlight(g, k) {
      InFlightHolds(h, g, k);
      HolderIsStable(h, g, k);
      var j: nat :| HoldsNativeId(g, j) && !NativeInFlight(g, j);
      OneHolder(h, g, j, k);
    }
  }

  /** The handles stay, and what is in flight after the turn was before or is new and explicit. */
  ghost predicate Stays(g: Gateway, t: Gateway) {
    && t.runtimeId == g.runtimeId && t.counters.nativeProvider == g.counters.nativeProvider
    && |g.egress.session.handles| <= |t.egress.session.handles|
    && (forall k :: 0 <= k < |g.egress.session.handles| ==>
          t.egress.session.handles[k].decision == g.egress.session.handles[k].decision)
    && (forall k: nat :: NativeInFlight(t, k) ==> NativeInFlight(g, k))
  }

  lemma StaysBlocked(g: Gateway, t: Gateway)
    requires Stays(g, t) && NativesBlocked(g)
    ensures NativesBlocked(t)
  {
    SameNativeId(g, t);
    hide NativeId, NativeInFlight, StableId;
    if HeldForGood(g) {
      var k: nat :| HoldsNativeId(g, k) && !NativeInFlight(g, k);
      assert HoldsNativeId(t, k) && !NativeInFlight(t, k);
    }
  }

  lemma UnstableIdRefused(h: Hash, routes: seq<Route>, g: Gateway, q: Request, auth: Authority, clock: PrepareClock, sentAt: Time)
    requires !StableId(NativeId(g))
    ensures var (egress, started) := Begin(h, routes, g.egress, Named(g, Native, q), auth, clock, sentAt);
            started == Ended(Threw) && egress == g.egress
  {
    hide StableId, NativeId, KnownProvider, ModelPin, Admit, FindRoute, LineageRefusal, ContentReference;
  }

  lemma BlockedTurn(h: Hash, routes: seq<Route>, g: Gateway, turn: Loopback.Turn)
    requires Serving(h, g) && NativesBlocked(g)
    ensures Stays(g, Loopback.Next(h, routes, g, turn))
  {
    hide EgressInv, NativesHold, CountsAgree, DecisionsHeld, FlightsValid, Begin, Resume, HoldsNativeId, NativeId, StableId;
    match turn
    case Arrive(Readable(kind, q, auth, clock, sentAt)) =>
      BeginShape(h, routes, g.egress, Named(g, kind, q), auth, clock, sentAt);
      if kind == Native { BlockedNativeRefused(h, routes, g, q, auth, clock, sentAt); }
      hide NativesBlocked, Named;
      HandlesKept(g.egress.session.handles, Loopback.Next(h, routes, g, turn).egress.session.handles);
    case Land(k, reply, clock) =>
      BlockedMeansNoneInFlight(h, g, k);
      if k in g.waiting && k in g.egress.flights {
        FlightNotStuck(h, g.egress, k);
        ResumeShape(h, g.egress, k, reply, clock);
      }
    case _ =>
  }

  lemma HandlesKept(before: seq<Handle>, after: seq<Handle>)
    requires |before| <= |after| && after[..|before|] == before
    ensures forall k :: 0 <= k < |before| ==> after[k].decision == before[k].decision
  {
    assert forall k :: 0 <= k < |before| ==> after[k] == after[..|before|][k];
  }

  lemma BlockedNativeRefused(h: Hash, routes: seq<Route>, g: Gateway, q: Request, auth: Authority, clock: PrepareClock, sentAt: Time)
    requires GatewayInv(h, g) && NativesBlocked(g)
    ensures var (egress, started) := Begin(h, routes, g.egress, Named(g, Native, q), auth, clock, sentAt);
            started == Ended(Threw) && egress == g.egress
  {
    hide GatewayInv, HoldsNativeId, NativeId, StableId, Begin, Named;
    if HeldForGood(g) {
      var k: nat :| HoldsNativeId(g, k) && !NativeInFlight(g, k);
      HeldIdRefused(h, routes, g, k, q, auth, clock, sentAt);
    } else {
      UnstableIdRefused(h, routes, g, q, auth, clock, sentAt);
    }
  }

  lemma {:induction false} BlockedStaysBlocked(h: Hash, routes: seq<Route>, g: Gateway, turns: seq<Loopback.Turn>)
    requires OccurrenceCollisionFree(h) && Serving(h, g) && NativesBlocked(g)
    requires |Loopback.Run(h, routes, g, turns).egress.session.recorder.log| <= MAX_SAFE_INTEGER
    ensures Loopback.Run(h, routes, g, turns).counters.nativeProvider == g.counters.nativeProvider
    decreases |turns|
  {
    hide Loopback.Next, GatewayInv, DecisionsHeld, NativesBlocked;
    if turns != [] {
      var t := Loopback.Next(h, routes, g, turns[0]);
      Loopback.NextKeepsValid(h, routes, g, turns[0]);
      Loopback.RunGrows(h, routes, t, turns[1..]);
      NextServes(h, routes, g, turns[0]);
      BlockedTurn(h, routes, g, turns[0]);
      StaysBlocked(g, t);
      BlockedStaysBlocked(h, routes, t, turns[1..]);
    }
  }

  // ----- and when they are not -----

  /** The content of a request passes every check of prepare but those on its id and number, with its
      readings in order. */
  predicate Passes(h: Hash, routes: seq<Route>, q: Request, auth: Authority, clock: PrepareClock) {
    && q.requestedModel.Some?
    && var input := PrepareInputFor(q, q.requestedModel.value, auth, FindRoute(routes, q));
       && PrepareRefusal(input).None? && ContentReference(h, input.body, input.mediaType).Ok?
       && |input.body| <= MAX_SAFE_INTEGER && clock.evaluatedAt <= clock.decisionAt
  }

  /** A dispatch that passes, as attempt 1 under a free id, is recorded: it is in flight or was blocked. */
  lemma FreeIdBegins(h: Hash, routes: seq<Route>, s: State, q: Request, auth: Authority, clock: PrepareClock, sentAt: Time)
    requires EgressInv(h, s) && s.session.recorder.manifest.status == Recording
    requires q.number == 1 && 1 !in PriorAttempts(s.session.recorder, q.logicalId)
    requires Passes(h, routes, q, auth, clock) && |s.session.recorder.log| < MAX_SAFE_INTEGER
    ensures var (t, started) := Begin(h, routes, s, q, auth, clock, sentAt);
            var n := |s.session.handles|;
            && started != Ended(Threw) && (started.InFlight? ==> started.handle == n)
            && (started.Ended? ==> started.ending.disposition == Refused && started.ending.released == None)
            && (!(auth.identityVerified && auth.policyAllows) ==> started.Ended?)
            && t.stuck == s.stuck && |t.session.recorder.log| <= |s.session.recorder.log| + 2
            && |t.session.handles| == n + 1
            && t.session.handles[n].decision.body.attempt.logicalId == q.logicalId
            && t.session.handles[n].decision.body.attempt.number == 1
  {
    hide LogSound, AccountsAgree, SentLogged, Counted, Tracked, FlightsOpen, OpenHandle, Prepare, FindRoute, ContentReference, PrepareRefusal;
    var r := s.session.recorder;
    var input := PrepareInputFor(q, q.requestedModel.value, auth, FindRoute(routes, q));
    PrepareRecordedExactlyWhen(h, r, input, clock);
    PrepareAdds(h, r, input, clock);
    hide EgressInv;
  }

  /** If the next native id is free, such a request takes it: an explicit one, which leaves the counter
      where it is, then holds it, and a blocked native one is counted. */
  lemma FreeIdTaken(h: Hash, routes: seq<Route>, g: Gateway, kind: Kind, q: Request, auth: Authority, clock: PrepareClock, sentAt: Time)
    requires Serving(h, g) && !(exists k: nat :: HoldsNativeId(g, k)) && |g.egress.session.recorder.log| < MAX_SAFE_INTEGER
    requires q.logicalId == NativeId(g) && q.number == 1 && Passes(h, routes, q, auth, clock)
    ensures var t := Loopback.Next(h, routes, g, Arrive(Readable(kind, q, auth, clock, sentAt)));
            var n := |g.egress.session.handles|;
            && t.left == g.left && t.runtimeId == g.runtimeId && t.egress.stuck == g.egress.stuck
            && |t.egress.session.recorder.log| <= |g.egress.session.recorder.log| + 2
            && (kind == Explicit ==>
                  && HoldsNativeId(t, n) && !NativeInFlight(t, n)
                  && t.counters.nativeProvider == g.counters.nativeProvider)
            && (kind == Native && !(auth.identityVerified && auth.policyAllows) ==>
                  t.counters.nativeProvider == g.counters.nativeProvider + 1)
  {
    NativeIdTaken(h, g);
    NewHandleIsFree(h, g);
    hide EgressInv, NativesHold, CountsAgree, DecisionsHeld, FlightsValid, Begin, NativeId, Loopback.Next, Passes, PriorAttempts;
    assert Named(g, kind, q) == q by { NamedAlready(h, routes, g, kind, q, auth, clock); }
    ArriveStep(h, routes, g, kind, q, auth, clock, sentAt);
    FreeIdBegins(h, routes, g.egress, q, auth, clock, sentAt);
    SameNativeId(g, Loopback.Next(h, routes, g, Arrive(Readable(kind, q, auth, clock, sentAt))));
  }

  lemma NamedAlready(h: Hash, routes: seq<Route>, g: Gateway, kind: Kind, q: Request, auth: Authority, clock: PrepareClock)
    requires q.logicalId == NativeId(g) && q.number == 1 && Passes(h, routes, q, auth, clock)
    ensures Named(g, kind, q) == q
  {
    hide NativeId, StableId, KnownProvider, ModelPin, ReasonCodesOk, FindRoute, ContentReference;
  }

  lemma NewHandleIsFree(h: Hash, g: Gateway)
    requires GatewayInv(h, g)
    ensures |g.egress.session.handles| !in g.waiting
  {
    hide SessionInv, SentLogged, Counted, Tracked, NativesHold;
    WaitingBelow(h, g);
  }

  // ----- a native request that any gateway may get -----

  /** Why an unrouted request for an unknown model is blocked if the workload's identity is refused, too. */
  const REFUSED := [BOUNDARY_CODE, CONFIGURATION_CODE, "http_egress_route_not_allowed", "model_route_not_allowed", "workload_identity_refused"]

  const BLOCKING := Authority(false, false, REFUSED, 0)

  const EARLY := PrepareClock(0, 0, 0)

  /** Sent where no route leads. */
  function UnroutedRequest(id: string): Request {
    Request("openai", "https://openai.blocked.invalid/v1/responses", MODEL_BODY, "application/json", Some("1"), id, 1, None)
  }

  lemma ReasonsPass()
    ensures ReasonCodesOk(REFUSED)
  {
    DigestCodesAreStable();
    PlainCodesAreStable();
    ReasonsInOrder();
    hide StableId, Precedes;
  }

  lemma ReasonsInOrder()
    ensures StrictlyOrdered(REFUSED)
  {
    UnitDecides(REFUSED[0], REFUSED[1], 0);
    UnitDecides(REFUSED[1], REFUSED[2], 5);
    UnitDecides(REFUSED[2], REFUSED[3], 0);
    UnitDecides(REFUSED[3], REFUSED[4], 0);
    hide Precedes;
  }

  lemma PlainCodesAreStable()
    ensures StableId("http_egress_route_not_allowed") && StableId("model_route_not_allowed") && StableId("workload_identity_refused")
  {
  }

  lemma UnroutedPasses(h: Hash, routes: seq<Route>, id: string)
    requires StableId(id)
    ensures Passes(h, routes, UnroutedRequest(id), BLOCKING, EARLY)
  {
    ReasonsPass();
    ModelOneIsPinned();
    JsonIsPrintable();
    hide StableId, ReasonCodesOk, ModelPin, FindRoute, PrintableMediaType;
  }

  /** A native in flight whose transport fails with its readings in order is counted. */
  lemma NativeLands(h: Hash, routes: seq<Route>, g: Gateway, k: nat)
    requires Serving(h, g) && NativeInFlight(g, k) && |g.egress.session.recorder.log| < MAX_SAFE_INTEGER
    ensures k < |g.egress.session.handles| && g.egress.session.handles[k].dispatchedAt.Some?
    ensures var at := g.egress.session.handles[k].dispatchedAt.value;
            var t := Loopback.Next(h, routes, g, Loopback.Turn.Land(k, TransportThrew, CloseClock(at, at, 0)));
            && t.counters.nativeProvider == g.counters.nativeProvider + 1
            && |t.egress.session.recorder.log| == |g.egress.session.recorder.log| + 1
  {
    hide EgressInv, NativesHold, DecisionsHeld, FlightsValid, Resume, Loopback.Next;
    assert k in g.egress.flights;
    FlightNotStuck(h, g.egress, k);
    FlightHandle(h, g.egress, k);
    var at := g.egress.session.handles[k].dispatchedAt.value;
    var clock := CloseClock(at, at, 0);
    ThrowsExactly(h, g.egress, k, TransportThrew, clock);
    assert EndFits(g.egress, k, TransportThrew, clock);
    assert LeavesAs(h, g.egress, k, TransportThrew, clock, Back);
    LandStep(h, routes, g, k, TransportThrew, clock);
  }

  lemma RunOne(h: Hash, routes: seq<Route>, g: Gateway, turn: Loopback.Turn)
    requires FlightsValid(g.egress)
    ensures Loopback.Run(h, routes, g, [turn]) == Loopback.Next(h, routes, g, turn)
  {
    hide Loopback.Next, FlightsValid;
    Loopback.NextKeepsValid(h, routes, g, turn);
    var none: seq<Loopback.Turn> := [];
    assert [turn][1..] == none;
    assert Loopback.Run(h, routes, Loopback.Next(h, routes, g, turn), none) == Loopback.Next(h, routes, g, turn);
  }

  /** Natives are refused for good, in every continuation, exactly if the next native id is held by an
      attempt other than a native one in flight, or is too long to be an id. */
  lemma NativesWedgedExactly(h: Hash, routes: seq<Route>, g: Gateway)
    requires OccurrenceCollisionFree(h) && Serving(h, g)
    requires |g.egress.session.recorder.log| + 2 <= MAX_SAFE_INTEGER
    ensures Wedged(h, routes, g) <==> NativesBlocked(g)
  {
    hide GatewayInv, DecisionsHeld, FlightsValid, Loopback.Next, Loopback.Run, HoldsNativeId, NativeId, StableId, NativeInFlight;
    if NativesBlocked(g) {
      forall turns: seq<Loopback.Turn> | |Loopback.Run(h, routes, g, turns).egress.session.recorder.log| <= MAX_SAFE_INTEGER
        ensures Loopback.Run(h, routes, g, turns).counters.nativeProvider == g.counters.nativeProvider
      {
        BlockedStaysBlocked(h, routes, g, turns);
      }
    } else {
      var turn := UnblockedTurn(h, routes, g);
      RunOne(h, routes, g, turn);
      assert !Wedged(h, routes, g);
    }
  }

  lemma UnblockedTurn(h: Hash, routes: seq<Route>, g: Gateway) returns (turn: Loopback.Turn)
    requires Serving(h, g) && !NativesBlocked(g) && |g.egress.session.recorder.log| + 2 <= MAX_SAFE_INTEGER
    ensures var t := Loopback.Next(h, routes, g, turn);
            && |t.egress.session.recorder.log| <= MAX_SAFE_INTEGER
            && t.counters.nativeProvider == g.counters.nativeProvider + 1
  {
    hide GatewayInv, DecisionsHeld, FlightsValid, Loopback.Next, HoldsNativeId, NativeId, StableId, NativeInFlight;
    if k: nat :| HoldsNativeId(g, k) {
      NativeLands(h, routes, g, k);
      var at := g.egress.session.handles[k].dispatchedAt.value;
      turn := Loopback.Turn.Land(k, TransportThrew, CloseClock(at, at, 0));
    } else {
      var q := UnroutedRequest(NativeId(g));
      turn := Arrive(Readable(Native, q, BLOCKING, EARLY, 0));
      UnroutedPasses(h, routes, NativeId(g));
      hide Passes;
      FreeIdTaken(h, routes, g, Native, q, BLOCKING, EARLY, 0);
    }
  }

  // ----- the two ways into it -----

  /** A native dispatch left by an exception wedges natives. */
  lemma ExceptionWedgesNatives(h: Hash, g: Gateway, k: nat)
    requires Serving(h, g) && k in g.left && g.left[k] == Native
    ensures HeldForGood(g)
  {
    hide SessionInv, SentLogged, Counted, Tracked, DecisionsHeld, HoldsNativeId;
    assert k in Natives(g);
    assert HoldsNativeId(g, k) && !NativeInFlight(g, k);
  }

  /** So does every explicit envelope under the id that the next native request would get, as attempt 1,
      if its content passes: blocked or dispatched, it wedges natives at once and for good. */
  lemma ExplicitEnvelopeWedgesNatives(h: Hash, routes: seq<Route>, g: Gateway, q: Request, auth: Authority, clock: PrepareClock, sentAt: Time)
    requires OccurrenceCollisionFree(h) && Serving(h, g) && !(exists k: nat :: HoldsNativeId(g, k))
    requires q.logicalId == NativeId(g) && q.number == 1 && Passes(h, routes, q, auth, clock)
    requires |g.egress.session.recorder.log| + 4 <= MAX_SAFE_INTEGER
    ensures var t := Loopback.Next(h, routes, g, Arrive(Readable(Explicit, q, auth, clock, sentAt)));
            && t.counters.nativeProvider == g.counters.nativeProvider && t.left == g.left && t.egress.stuck == g.egress.stuck
            && FlightsValid(t.egress) && Wedged(h, routes, t)
  {
    hide Loopback.Next, GatewayInv, DecisionsHeld, HoldsNativeId, NativeInFlight, NativeId, Passes;
    FreeIdTaken(h, routes, g, Explicit, q, auth, clock, sentAt);
    var turn := Arrive(Readable(Explicit, q, auth, clock, sentAt));
    var t := Loopback.Next(h, routes, g, turn);
    Loopback.NextKeepsValid(h, routes, g, turn);
    NextServes(h, routes, g, turn);
    assert HeldForGood(t);
    hide Serving;
    NativesWedgedExactly(h, routes, t);
  }

  /** For instance as the first request of all, blocked because the workload's identity is refused. */
  lemma FirstEnvelopeWedgesNatives(h: Hash, routes: seq<Route>, session: string, createdAt: Time, runtimeId: string)
    requires OccurrenceCollisionFree(h) && StableId(session) && StableId(runtimeId + "-native-1")
    ensures var g := NewGateway(session, createdAt, runtimeId);
            var q := UnroutedRequest(runtimeId + "-native-1");
            var t := Loopback.Next(h, routes, g, Arrive(Readable(Explicit, q, BLOCKING, EARLY, 0)));
            && t.counters.nativeProvider == 0 && t.egress.stuck == {} && t.left == map[]
            && FlightsValid(t.egress) && Wedged(h, routes, t)
  {
    hide StableId, Loopback.Next, GatewayInv, DecisionsHeld, HoldsNativeId, Wedged;
    var g := NewGateway(session, createdAt, runtimeId);
    var q := UnroutedRequest(runtimeId + "-native-1");
    NewGatewayServes(h, session, createdAt, runtimeId);
    FirstNativeId(g);
    assert forall k: nat :: !HoldsNativeId(g, k) by { NothingHeld(g); }
    UnroutedPasses(h, routes, q.logicalId);
    hide Passes, Serving;
    ExplicitEnvelopeWedgesNatives(h, routes, g, q, BLOCKING, EARLY, 0);
  }

  lemma FirstNativeId(g: Gateway)
    requires g.counters.nativeProvider == 0
    ensures NativeId(g) == g.runtimeId + "-native-1"
  {
    assert Decimal(1) == "1";
  }

  lemma NothingHeld(g: Gateway)
    requires g.egress.session.handles == []
    ensures forall k: nat :: !HoldsNativeId(g, k)
  {
  }
}
