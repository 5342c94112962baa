/** The recorder as the objects it is made of: a frame chain, a recorder that owns it, and attempts
    that hold a reference to the recorder. Each method is proved to do what GatewayRecording says. */
module GatewayObjects {
  import opened Common
  import opened GatewayFrames
  import Calls = GatewayRecording

  class GatewayFrameChain {
    var sequence: int
    var head: Digest

    constructor ()
      ensures sequence == 0 && head == GENESIS
    {
      sequence, head := 0, GENESIS;
    }

    function State(): Calls.Chain
      reads this
    {
      Calls.Chain(sequence, head)
    }

    method Append(hash: Hash, session: string, observedAt: Time, a: Attempt, detail: Detail)
      returns (out: Result<Frame, Calls.GatewayError>)
      modifies this
      ensures var body := FrameBody(session, old(sequence), observedAt, a, OccurrenceSha(hash, a), detail, old(head));
              var f := Frame(body, hash(FrameContent(body)));
              if FrameIssues(hash, f) == {}
              then out == Ok(f) && sequence == old(sequence) + 1 && head == f.sha
              else out == Err(Calls.FrameRefused(FrameIssues(hash, f))) && State() == old(State())
    {
      hide Raises;
      var body := FrameBody(session, sequence, observedAt, a, OccurrenceSha(hash, a), detail, head);
      var f := Frame(body, hash(FrameContent(body)));
      var issues := FrameIssues(hash, f);
      if issues != {} {
        return Err(Calls.FrameRefused(issues));
      }
      sequence := sequence + 1;
      head := f.sha;
      return Ok(f);
    }
  }

  class GatewayRecorder {
    const hash: Hash
    const frameChain: GatewayFrameChain
    var log: seq<Frame>
    var manifest: Calls.Manifest
    var openAttempts: int
    var logicalOccurrences: map<string, map<int, Digest>>

    constructor (hash: Hash, session: string, createdAt: Time)
      ensures State() == Calls.NewRecorder(session, createdAt) && this.hash == hash && fresh(frameChain)
    {
      this.hash := hash;
      frameChain := new GatewayFrameChain();
      log := [];
      manifest := Calls.NewRecorder(session, createdAt).manifest;
      openAttempts := 0;
      logicalOccurrences := map[];
    }

    function State(): Calls.Recorder
      reads this, frameChain
    {
      Calls.Recorder(frameChain.State(), log, manifest, openAttempts, logicalOccurrences)
    }

    method Append(f: Frame) returns (refused: Option<Calls.GatewayError>)
      modifies this`log, this`manifest
      ensures refused == Calls.SpoolRefusal(hash, old(manifest), f)
      ensures if refused.Some? then log == old(log) && manifest == old(manifest)
              else log == old(log) + [f]
                   && manifest == old(manifest).(frameCount := old(manifest).frameCount + 1, chainHead := f.sha)
    {
      hide Raises;
      refused := Calls.SpoolRefusal(hash, manifest, f);
      if refused.None? {
        log := log + [f];
        manifest := manifest.(frameCount := manifest.frameCount + 1, chainHead := f.sha);
      }
    }

    method Emit(observedAt: Time, a: Attempt, detail: Detail) returns (out: Result<Frame, Calls.GatewayError>)
      modifies this`log, this`manifest, frameChain
      ensures (State(), out) == Calls.Emit(hash, old(State()), observedAt, a, detail)
    {
      hide FrameIssues;
      out := frameChain.Append(hash, manifest.session, observedAt, a, detail);
      if out.Ok? {
        var refused := Append(out.value);
        if refused.Some? {
          out := Err(refused.value);
        }
      }
    }

    method Prepare(input: Calls.PrepareInput, clock: Calls.PrepareClock)
      returns (out: Result<GatewayAttempt, Calls.GatewayError>)
      modifies this, frameChain
      ensures var (state, expected) := Calls.Prepare(hash, old(State()), input, clock);
              && State() == state
              && match expected
                 case Err(e) => out == Err(e)
                 case Ok(handle) => out.Ok? && fresh(out.value) && out.value.recorder == this && out.value.State() == handle
    {
      hide Calls.Emit, Calls.PrepareRefusal, ContentOk;
      if manifest.status != Calls.Recording { return Err(Calls.RecorderFinalized); }
      var refusal := Calls.PrepareRefusal(input);
      if refusal.Some? { return Err(refusal.value); }
      var request := Calls.ContentReference(hash, input.body, input.mediaType);
      if request.Err? { return Err(request.error); }
      var lineage := Calls.LineageRefusal(State(), input);
      if lineage.Some? { return Err(lineage.value); }
      var a := Calls.AttemptFor(input, request.value);
      var policy := Calls.PolicyFor(hash, input, request.value, clock.evaluatedAt);
      hide Calls.LineageRefusal, Calls.ContentReference, Calls.AttemptFor, Calls.PolicyFor;
      var decided := Emit(clock.decisionAt, a, Decision(policy));
      if decided.Err? { return Err(decided.error); }
      var priorAttempts := if a.logicalId in logicalOccurrences then logicalOccurrences[a.logicalId] else map[];
      logicalOccurrences :=
        logicalOccurrences[a.logicalId := priorAttempts[a.number := decided.value.body.occurrence]];
      if policy.body.verdict == Blocked {
        var acted := Emit(clock.actionAt, a, Action(policy.receiptSha, Calls.CensoredTerminal(policy.body)));
        if acted.Err? { return Err(acted.error); }
        manifest := manifest.(attemptCount := manifest.attemptCount + 1);
        var attempt := new GatewayAttempt(this, decided.value, true);
        return Ok(attempt);
      }
      openAttempts := openAttempts + 1;
      var attempt := new GatewayAttempt(this, decided.value, false);
      return Ok(attempt);
    }

    method CloseAttempt(decision: Frame, t: Terminal, observedAt: Time)
      returns (out: Result<Frame, Calls.GatewayError>)
      requires decision.IsDecision()
      modifies this, frameChain
      ensures (State(), out) == Calls.CloseAttempt(hash, old(State()), decision, t, observedAt)
    {
      hide Calls.Emit;
      if openAttempts < 1 { return Err(Calls.AccountingInvalid); }
      out := Emit(observedAt, decision.body.attempt, Action(decision.body.detail.policy.receiptSha, t));
      if out.Ok? {
        openAttempts := openAttempts - 1;
        manifest := manifest.(attemptCount := manifest.attemptCount + 1);
      }
    }

    method Finalize(at: Time) returns (refused: Option<Calls.GatewayError>)
      modifies this`manifest
      ensures (State(), refused) == Calls.Finalize(old(State()), at)
    {
      if manifest.status != Calls.Recording { return None; }
      if openAttempts != 0 { return Some(Calls.OpenAttemptsRemain); }
      if manifest.attemptCount == 0 { return Some(Calls.EmptyBundle); }
      manifest := manifest.(status := Calls.Finalized, finalizedAt := Some(at));
      return None;
    }
  }

  class GatewayAttempt {
    const recorder: GatewayRecorder
    const decision: Frame
    const censored: bool
    var dispatchStartedAt: Option<Time>
    var closed: bool

    constructor (recorder: GatewayRecorder, decision: Frame, censored: bool)
      ensures this.recorder == recorder && State() == Calls.Handle(decision, censored, None, censored)
    {
      this.recorder := recorder;
      this.decision := decision;
      this.censored := censored;
      dispatchStartedAt := None;
      closed := censored;
    }

    function State(): Calls.Handle
      reads this
    {
      Calls.Handle(decision, censored, dispatchStartedAt, closed)
    }

    method MarkDispatched(at: Time) returns (refused: Option<Calls.GatewayError>)
      modifies this
      ensures (State(), refused) == Calls.MarkDispatched(old(State()), at)
    {
      if censored { return Some(Calls.CensoredCannotDispatch); }
      if closed { return Some(Calls.AttemptClosed); }
      if dispatchStartedAt.Some? { return Some(Calls.AlreadyDispatched); }
      dispatchStartedAt := Some(at);
      return None;
    }

    method Finish(t: Terminal, clock: Calls.CloseClock) returns (out: Result<Frame, Calls.GatewayError>)
      requires decision.IsDecision()
      modifies this, recorder, recorder.frameChain
      ensures (recorder.State(), State(), out)
              == Calls.Finish(recorder.hash, old(recorder.State()), old(State()), t, clock)
    {
      hide Calls.CloseAttempt;
      closed := true;
      out := recorder.CloseAttempt(decision, t, clock.observedAt);
    }

    method Succeed(input: Calls.SuccessInput, clock: Calls.CloseClock) returns (out: Result<Frame, Calls.GatewayError>)
      requires decision.IsDecision()
      modifies this, recorder, recorder.frameChain
      ensures (recorder.State(), State(), out)
              == Calls.Succeed(recorder.hash, old(recorder.State()), old(State()), input, clock)
    {
      hide Calls.Finish, Calls.ContentReference, Calls.SuccessRefusal, Calls.SuccessTerminal;
      var refusal := Calls.SuccessRefusal(State(), input);
      if refusal.Some? { return Err(refusal.value); }
      var response := Calls.ContentReference(recorder.hash, input.body, input.mediaType);
      if response.Err? { return Err(response.error); }
      out := Finish(Calls.SuccessTerminal(State(), input, response.value, clock), clock);
      if out.Ok? && input.resolvedModel != decision.body.attempt.requestedModel {
        out := Err(Calls.IdentityMismatchRecorded(out.value));
      }
    }

    method Fail(input: Calls.FailureInput, clock: Calls.CloseClock) returns (out: Result<Frame, Calls.GatewayError>)
      requires decision.IsDecision()
      modifies this, recorder, recorder.frameChain
      ensures (recorder.State(), State(), out)
              == Calls.Fail(recorder.hash, old(recorder.State()), old(State()), input, clock)
    {
      hide Calls.Finish, Calls.FailureResponse, Calls.FailureRefusal, Calls.FailureTerminal;
      var refusal := Calls.FailureRefusal(State(), input);
      if refusal.Some? { return Err(refusal.value); }
      var response := Calls.FailureResponse(recorder.hash, input);
      if response.Err? { return Err(response.error); }
      out := Finish(Calls.FailureTerminal(State(), input, response.value, clock), clock);
    }
  }
}
