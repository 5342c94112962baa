/** Dispatch safety: the transport runs at most once per dispatch and only after a recorded allowed
    decision, a body is released only with its recorded success, and a dispatch leaves by exception with
    its attempt open exactly for the replies named here (src/http-egress.ts, src/provider-adapters.ts). */
module EgressSafety {
  import opened Common
  import opened GatewayFrames
  import opened GatewayRecording
  import opened GatewayInvariant
  import opened Egress

  // ----- the invariant -----

  predicate InFlightHandle(a: Handle) {
    !a.closed && !a.censored && a.dispatchedAt.Some?
  }

  ghost predicate SentLogged(s: State) {
    && (forall i {:trigger s.sent[i]} :: 0 <= i < |s.sent| ==>
          && s.sent[i].handle < |s.session.handles|
          && s.sent[i].logged <= |s.session.recorder.log|
          && s.session.handles[s.sent[i].handle].decision in s.session.recorder.log[..s.sent[i].logged]
          && VerdictOf(s.session.handles[s.sent[i].handle]) == Some(Allowed))
    && (forall i, j {:trigger s.sent[i], s.sent[j]} :: 0 <= i < j < |s.sent| ==> s.sent[i].handle != s.sent[j].handle)
  }

  function VerdictOf(a: Handle): Option<Verdict> {
    if a.decision.IsDecision() then Some(a.decision.body.detail.policy.body.verdict) else None
  }

  /** A dispatch in flight holds an open, dispatched attempt. */
  predicate FlightsOpen(s: State) {
    && (forall k :: k in s.flights ==> k < |s.session.handles| && k !in s.stuck && InFlightHandle(s.session.handles[k]))
    && (forall k :: k in s.stuck ==> k < |s.session.handles|)
  }

  /** An open attempt is in flight or was left by an exception. */
  predicate Tracked(s: State) {
    forall k :: 0 <= k < |s.session.handles| ==> s.session.handles[k].closed || k in s.flights || k in s.stuck
  }

  /** Two frames for every attempt, less one for each that has not ended. */
  predicate Counted(s: State) {
    |s.session.recorder.log| + |s.flights| + |s.stuck| == 2 * |s.session.handles|
  }

  ghost predicate EgressInv(h: Hash, s: State) {
    && SessionInv(h, s.session) && FlightsOpen(s) && Tracked(s) && Counted(s) && SentLogged(s)
  }

  // ----- beginning -----

  /** How many frames a prepare adds. */
  lemma PrepareAdds(h: Hash, r: Recorder, input: PrepareInput, clock: PrepareClock)
    ensures var (r', out) := Prepare(h, r, input, clock);
            out.Ok? ==>
              && r.log <= r'.log
              && |r'.log| == |r.log| + (if out.value.censored then 2 else 1)
              && out.value.decision.IsDecision()
              && VerdictOf(out.value) == Some(input.verdict)
              && out.value.censored == out.value.closed == (input.verdict == Blocked)
              && out.value.dispatchedAt == None
              && out.value.decision in r'.log
              && out.value.decision.body.attempt.requestedModel == input.requestedModel
              && out.value.decision.body.attempt.logicalId == input.logicalId
              && out.value.decision.body.attempt.number == input.number
  {
    hide Admit, PrepareRefusal, LineageRefusal;
    var ref := ContentReference(h, input.body, input.mediaType);
    if ref.Ok? {
      AdmitAdds(h, r, AttemptFor(input, ref.value), PolicyFor(h, input, ref.value, clock.evaluatedAt), clock);
    }
  }

  lemma AdmitAdds(h: Hash, r: Recorder, a: Attempt, policy: Policy, clock: PrepareClock)
    ensures var (r', out) := Admit(h, r, a, policy, clock);
            out.Ok? ==>
              && r.log <= r'.log
              && |r'.log| == |r.log| + (if out.value.censored then 2 else 1)
              && out.value.decision.IsDecision()
              && VerdictOf(out.value) == Some(policy.body.verdict)
              && out.value.censored == out.value.closed == (policy.body.verdict == Blocked)
              && out.value.dispatchedAt == None
              && out.value.decision in r'.log
              && out.value.decision.body.attempt == a
  {
    hide Emit;
    var (r1, decided) := Emit(h, r, clock.decisionAt, a, Decision(policy));
    EmitAdds(h, r, clock.decisionAt, a, Decision(policy));
    if decided.Ok? {
      var r2 := Remember(r1, a, decided.value.body.occurrence);
      EmitAdds(h, r2, clock.actionAt, a, Action(policy.receiptSha, CensoredTerminal(policy.body)));
      assert r1.log[|r.log|] == decided.value;
    }
  }

  lemma EmitAdds(h: Hash, r: Recorder, at: Time, a: Attempt, detail: Detail)
    ensures var (r', out) := Emit(h, r, at, a, detail);
            out.Ok? ==> r'.log == r.log + [out.value] && out.value.body.detail == detail && out.value.body.attempt == a
  {
    hide FrameIssues;
  }

  lemma DecisionStays(log: seq<Frame>, grown: seq<Frame>, n: nat, f: Frame)
    requires log <= grown && n <= |log| && f in log[..n]
    ensures f in grown[..n]
  {
    var i :| 0 <= i < n && log[..n][i] == f;
    assert grown[..n][i] == f;
  }

  lemma SentStays(s: State, t: State)
    requires SentLogged(s) && t.sent == s.sent
    requires s.session.recorder.log <= t.session.recorder.log
    requires |s.session.handles| <= |t.session.handles|
    requires forall k :: 0 <= k < |s.session.handles| ==> t.session.handles[k].decision == s.session.handles[k].decision
    ensures SentLogged(t)
  {
    forall i | 0 <= i < |t.sent|
      ensures t.session.handles[t.sent[i].handle].decision in t.session.recorder.log[..t.sent[i].logged]
    {
      DecisionStays(s.session.recorder.log, t.session.recorder.log, s.sent[i].logged, s.session.handles[s.sent[i].handle].decision);
    }
  }

  lemma BeginKeeps(h: Hash, routes: seq<Route>, s: State, q: Request, auth: Authority, clock: PrepareClock, sentAt: Time)
    requires OccurrenceCollisionFree(h) && EgressInv(h, s)
    requires |Begin(h, routes, s, q, auth, clock, sentAt).0.session.recorder.log| <= MAX_SAFE_INTEGER
    ensures EgressInv(h, Begin(h, routes, s, q, auth, clock, sentAt).0)
  {
    hide SessionInv, Prepare, FindRoute;
    var (t, started) := Begin(h, routes, s, q, auth, clock, sentAt);
    if q.requestedModel.Some? {
      var input := PrepareInputFor(q, q.requestedModel.value, auth, FindRoute(routes, q));
      PrepareKeeps(h, s.session, input, clock);
      PrepareAdds(h, s.session.recorder, input, clock);
      var (r, prepared) := Prepare(h, s.session.recorder, input, clock);
      if prepared.Ok? {
        var k := |s.session.handles|;
        var plain := s.(session := Session(r, s.session.handles + [prepared.value]));
        hide PrepareInputFor;
        SentStays(s, plain);
        if started.InFlight? {
          BeginInFlight(h, s, plain, t, r, prepared.value, sentAt);
        }
      }
    }
  }

  lemma SentExtends(plain: State, t: State, sentAt: Time)
    requires SentLogged(plain) && plain.session.handles != []
    requires forall x :: x in plain.sent ==> x.handle < |plain.session.handles| - 1
    requires var k := |plain.session.handles| - 1;
             var a := plain.session.handles[k];
             && a.decision in plain.session.recorder.log && VerdictOf(a) == Some(Allowed)
             && t.session == Session(plain.session.recorder, plain.session.handles[k := a.(dispatchedAt := Some(sentAt))])
             && t.sent == plain.sent + [Sent(k, |plain.session.recorder.log|)]
    ensures SentLogged(t)
  {
    var log := plain.session.recorder.log;
    assert log[..|log|] == log;
    assert forall i :: 0 <= i < |plain.sent| ==> plain.sent[i] in plain.sent;
    forall i | 0 <= i < |t.sent|
      ensures && t.sent[i].handle < |t.session.handles|
              && t.sent[i].logged <= |log|
              && t.session.handles[t.sent[i].handle].decision in log[..t.sent[i].logged]
              && VerdictOf(t.session.handles[t.sent[i].handle]) == Some(Allowed)
    {
      if i < |plain.sent| { assert plain.sent[i] == t.sent[i]; }
    }
  }

  lemma SentBelow(s: State, x: Sent)
    requires SentLogged(s) && x in s.sent
    ensures x.handle < |s.session.handles|
  {
  }

  lemma BeginInFlight(h: Hash, s: State, plain: State, t: State, r: Recorder, a: Handle, sentAt: Time)
    requires EgressInv(h, s) && SessionInv(h, plain.session) && SentLogged(plain)
    requires plain == s.(session := Session(r, s.session.handles + [a]))
    requires a.decision in r.log && VerdictOf(a) == Some(Allowed)
    requires !a.closed && !a.censored && a.dispatchedAt == None
    requires |r.log| == |s.session.recorder.log| + 1
    requires t.session == Session(r, s.session.handles + [a.(dispatchedAt := Some(sentAt))])
    requires t.stuck == s.stuck && t.sent == s.sent + [Sent(|s.session.handles|, |r.log|)]
    requires t.flights.Keys == s.flights.Keys + {|s.session.handles|}
    ensures EgressInv(h, t)
  {
    hide SessionInv, SentLogged, FlightsOpen, Tracked, Counted;
    var k := |s.session.handles|;
    var marked := a.(dispatchedAt := Some(sentAt));
    MarkLast(h, r, s.session.handles, a, sentAt);
    forall x | x in plain.sent ensures x.handle < k { SentBelow(s, x); }
    assert (s.session.handles + [a])[k := marked] == s.session.handles + [marked];
    SentExtends(plain, t, sentAt);
    FlightAdded(s, t, marked);
  }

  lemma FlightAdded(s: State, t: State, marked: Handle)
    requires FlightsOpen(s) && Tracked(s) && Counted(s) && InFlightHandle(marked)
    requires t.session.handles == s.session.handles + [marked] && t.stuck == s.stuck
    requires |t.session.recorder.log| == |s.session.recorder.log| + 1
    requires t.flights.Keys == s.flights.Keys + {|s.session.handles|}
    ensures FlightsOpen(t) && Tracked(t) && Counted(t)
  {
    assert |t.flights.Keys| == |s.flights.Keys| + 1;
  }

  lemma MarkLast(h: Hash, r: Recorder, handles: seq<Handle>, a: Handle, at: Time)
    requires SessionInv(h, Session(r, handles + [a]))
    ensures SessionInv(h, Session(r, handles + [a.(dispatchedAt := Some(at))]))
  {
    hide RecorderInv;
    var (s, t) := (handles + [a], handles + [a.(dispatchedAt := Some(at))]);
    assert forall k :: 0 <= k < |t| ==> t[k].decision == s[k].decision && t[k].closed == s[k].closed && t[k].censored == s[k].censored;
  }

  // ----- resuming -----

  lemma FailAdds(h: Hash, r: Recorder, a: Handle, input: FailureInput, clock: CloseClock)
    requires a.decision.IsDecision()
    ensures var (r', a', out) := Fail(h, r, a, input, clock);
            && r.log <= r'.log && a'.decision == a.decision
            && |r'.log| == |r.log| + (if out.Ok? then 1 else 0)
            && (out.Ok? ==> a'.closed && r'.log[|r.log|] == out.value && IsActionOf(out.value, a, input.outcome))
  {
    hide Emit, FailureRefusal, FailureResponse;
    var response := FailureResponse(h, input);
    if response.Ok? {
      var detail := Action(a.decision.body.detail.policy.receiptSha, FailureTerminal(a, input, response.value, clock));
      EmitAdds(h, r, clock.observedAt, a.decision.body.attempt, detail);
      EmitErrKeeps(h, r, clock.observedAt, a.decision.body.attempt, detail);
    }
  }

  lemma EmitErrKeeps(h: Hash, r: Recorder, at: Time, a: Attempt, detail: Detail)
    ensures Emit(h, r, at, a, detail).1.Err? ==> Emit(h, r, at, a, detail).0.log == r.log
  {
    hide FrameIssues;
  }

  predicate IsActionOf(f: Frame, a: Handle, outcome: Outcome) {
    && f.IsAction() && f.body.detail.terminal.outcome == outcome
    && f.body.attempt == a.decision.body.attempt
  }

  lemma SucceedAdds(h: Hash, r: Recorder, a: Handle, input: SuccessInput, clock: CloseClock)
    requires a.decision.IsDecision()
    ensures var (r', a', out) := Succeed(h, r, a, input, clock);
            var recorded := out.Ok? || out.error.IdentityMismatchRecorded?;
            && r.log <= r'.log && a'.decision == a.decision
            && |r'.log| == |r.log| + (if recorded then 1 else 0)
            && (recorded ==> a'.closed)
            && (out.Ok? ==>
                  && r'.log[|r.log|] == out.value && IsActionOf(out.value, a, Success)
                  && out.value.body.detail.terminal.resolvedModel == Some(a.decision.body.attempt.requestedModel)
                  && out.value.body.detail.terminal.response == Some(ContentRef(input.mediaType, |input.body|, h(RawBytes(input.body)), true))
                  && input.resolvedModel == a.decision.body.attempt.requestedModel)
            && (recorded && out.Err? ==>
                  && IsActionOf(r'.log[|r.log|], a, IdentityMismatch)
                  && r'.log[|r.log|].body.detail.terminal.resolvedModel == Some(input.resolvedModel)
                  && input.resolvedModel != a.decision.body.attempt.requestedModel)
  {
    hide Emit, SuccessRefusal;
    var response := ContentReference(h, input.body, input.mediaType);
    if response.Ok? {
      var detail := Action(a.decision.body.detail.policy.receiptSha, SuccessTerminal(a, input, response.value, clock));
      EmitAdds(h, r, clock.observedAt, a.decision.body.attempt, detail);
      EmitErrKeeps(h, r, clock.observedAt, a.decision.body.attempt, detail);
    }
    SucceedErrors(h, r, a, input, clock);
  }

  lemma SucceedErrors(h: Hash, r: Recorder, a: Handle, input: SuccessInput, clock: CloseClock)
    requires a.decision.IsDecision()
    ensures SuccessRefusal(a, input).Some? ==> !SuccessRefusal(a, input).value.IdentityMismatchRecorded?
    ensures ContentReference(h, input.body, input.mediaType).Err? ==>
              !ContentReference(h, input.body, input.mediaType).error.IdentityMismatchRecorded?
    ensures var detail := Action(a.decision.body.detail.policy.receiptSha, SuccessTerminal(a, input, ContentRef(input.mediaType, |input.body|, h(RawBytes(input.body)), true), clock));
            var out := Emit(h, r, clock.observedAt, a.decision.body.attempt, detail).1;
            out.Err? ==> !out.error.IdentityMismatchRecorded?
  {
    hide FrameIssues, ModelPin, UsageOk;
  }

  lemma LandKeeps(h: Hash, s: State, k: nat, r: Recorder, a: Handle, threw: bool)
    requires FlightsOpen(s) && Tracked(s) && Counted(s) && SentLogged(s) && k in s.flights
    requires SessionInv(h, Session(r, s.session.handles[k := a]))
    requires s.session.recorder.log <= r.log && a.decision == s.session.handles[k].decision
    requires |r.log| == |s.session.recorder.log| + (if threw then 0 else 1)
    requires !threw ==> a.closed
    ensures EgressInv(h, Land(s, k, r, a, threw))
  {
    hide SessionInv, SentLogged, FlightsOpen, Tracked, Counted;
    FlightInRange(s, k);
    SentStays(s, Land(s, k, r, a, threw));
    LandTracks(s, k, r, a, threw);
  }

  lemma LandTracks(s: State, k: nat, r: Recorder, a: Handle, threw: bool)
    requires FlightsOpen(s) && Tracked(s) && Counted(s) && k in s.flights && k < |s.session.handles|
    requires |r.log| == |s.session.recorder.log| + (if threw then 0 else 1)
    requires !threw ==> a.closed
    ensures var t := Land(s, k, r, a, threw);
            FlightsOpen(t) && Tracked(t) && Counted(t)
  {
    var t := Land(s, k, r, a, threw);
    assert s.flights.Keys == t.flights.Keys + {k};
    assert |s.flights.Keys| == |t.flights.Keys| + 1;
  }

  lemma FlightInRange(s: State, k: nat)
    requires FlightsOpen(s) && k in s.flights
    ensures k < |s.session.handles|
  {
  }

  lemma ResumeKeeps(h: Hash, s: State, k: nat, reply: Reply, clock: CloseClock)
    requires OccurrenceCollisionFree(h) && EgressInv(h, s) && k in s.flights
    ensures EgressInv(h, Resume(h, s, k, reply, clock).0)
  {
    hide SentLogged, RecorderInv, Fail, Succeed, ClosingFor, Finish, OpenHandle, Tracked, Counted;
    var a := s.session.handles[k];
    match ClosingFor(a.decision.body.attempt.provider, s.flights[k].route, reply)
    case CloseFail(failure) =>
      FailAdds(h, s.session.recorder, a, failure, clock);
      FailKeepsSession(h, s.session, k, failure, clock);
      hide SessionInv, FlightsOpen;
      var (r, closed, out) := Fail(h, s.session.recorder, a, failure, clock);
      LandKeeps(h, s, k, r, closed, out.Err?);
    case CloseSucceed(success) =>
      SucceedAdds(h, s.session.recorder, a, success, clock);
      SucceedKeepsSession(h, s.session, k, success, clock);
      hide SessionInv, FlightsOpen;
      var (r, closed, out) := Succeed(h, s.session.recorder, a, success, clock);
      LandKeeps(h, s, k, r, closed, out.Err? && !out.error.IdentityMismatchRecorded?);
  }

  lemma FailKeepsSession(h: Hash, s: Session, k: nat, input: FailureInput, clock: CloseClock)
    requires SessionInv(h, s) && k < |s.handles|
    ensures var (r, a, _) := Fail(h, s.recorder, s.handles[k], input, clock);
            SessionInv(h, Session(r, s.handles[k := a]))
  {
    hide RecorderInv, Fail, Finish, OpenHandle;
    FailSplits(h, s.recorder, s.handles[k], input, clock);
    var ref := FailureResponse(h, input);
    if FailureRefusal(s.handles[k], input).None? && ref.Ok? {
      CloseKeeps(h, s, k, FailureTerminal(s.handles[k], input, ref.value, clock), clock);
    }
  }

  lemma SucceedKeepsSession(h: Hash, s: Session, k: nat, input: SuccessInput, clock: CloseClock)
    requires SessionInv(h, s) && k < |s.handles|
    ensures var (r, a, _) := Succeed(h, s.recorder, s.handles[k], input, clock);
            SessionInv(h, Session(r, s.handles[k := a]))
  {
    hide RecorderInv, Succeed, Finish, OpenHandle;
    SucceedSplits(h, s.recorder, s.handles[k], input, clock);
    var ref := ContentReference(h, input.body, input.mediaType);
    if SuccessRefusal(s.handles[k], input).None? && ref.Ok? {
      CloseKeeps(h, s, k, SuccessTerminal(s.handles[k], input, ref.value, clock), clock);
    }
  }
}
