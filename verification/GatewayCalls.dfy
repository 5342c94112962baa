/** Which calls of the gateway recorder are refused and for what, in terms of their inputs and of the log
    (src/gateway.ts). */
module GatewayCalls {
  import opened Common
  import opened GatewayFrames
  import opened GatewayRecording
  import opened GatewayInvariant

  // ----- prepare -----

  /** The log holds a decision on this attempt. */
  predicate Decided(log: seq<Frame>, id: string, n: int, i: nat) {
    && i < |log| && log[i].body.detail.Decision?
    && log[i].body.attempt.logicalId == id && log[i].body.attempt.number == n
  }

  predicate Known(log: seq<Frame>, id: string, n: int) {
    exists i :: 0 <= i < |log| && Decided(log, id, n, i)
  }

  /** The attempt one below is decided under the occurrence that the retry names. */
  predicate ParentKnown(log: seq<Frame>, input: PrepareInput) {
    exists i :: 0 <= i < |log| && Decided(log, input.logicalId, input.number - 1, i)
             && input.retryOf == Some(log[i].body.occurrence)
  }

  lemma PriorIsKnown(h: Hash, r: Recorder, id: string, n: int)
    requires RecorderInv(h, r)
    ensures n in PriorAttempts(r, id) <==> Known(r.log, id, n)
    ensures forall i :: 0 <= i < |r.log| && Decided(r.log, id, n, i) ==>
              n in PriorAttempts(r, id) && PriorAttempts(r, id)[n] == r.log[i].body.occurrence
  {
    hide CountersAgree, AccountsAgree, Distinct, Answered, Lineage;
    forall i | 0 <= i < |r.log| && Decided(r.log, id, n, i)
      ensures n in PriorAttempts(r, id) && PriorAttempts(r, id)[n] == r.log[i].body.occurrence
    {
      assert Recalls(r.logical, r.log[i]);
    }
    if n in PriorAttempts(r, id) {
      assert Records(r.log, id, n);
      var i :| 0 <= i < |r.log| && r.log[i].IsDecision()
               && r.log[i].body.attempt.logicalId == id && r.log[i].body.attempt.number == n;
      assert Decided(r.log, id, n, i);
    }
  }

  /** What prepare refuses of its inputs alone, in the order of its checks. */
  predicate InputRefusal(input: PrepareInput, e: Option<GatewayError>) {
    if !KnownProvider(input.provider) then e == Some(InputRefused(ProviderInvalid))
    else if !ModelPin(input.requestedModel) then e == Some(InputRefused(ModelNotPinned))
    else if !StableId(input.logicalId) then e == Some(InputRefused(LogicalIdInvalid))
    else if !(1 <= input.number <= 9_007_199_254_740_991) then e == Some(InputRefused(AttemptNumberInvalid))
    else if input.number == 1 && input.retryOf.Some? then e == Some(InputRefused(FirstAttemptHasParent))
    else if input.number > 1 && input.retryOf.None? then e == Some(InputRefused(RetryParentMissing))
    else if input.reasonCodes == [] || !StrictlyOrdered(input.reasonCodes)
            || (exists i :: 0 <= i < |input.reasonCodes| && !StableId(input.reasonCodes[i])) then
      e == Some(InputRefused(ReasonCodesInvalid))
    else if input.verdict == Allowed && input.censor.Some? then e == Some(AllowedPolicyHasCensor)
    else if input.verdict == Blocked && input.censor.None? then e == Some(BlockedPolicyWithoutCensor)
    else if |input.body| == 0 then e == Some(ContentMissing)
    else if !PrintableMediaType(input.mediaType) then e == Some(MediaTypeRefused)
    else e.None?
  }

  lemma InputRefusalHolds(h: Hash, input: PrepareInput)
    ensures var ref := ContentReference(h, input.body, input.mediaType);
            InputRefusal(input, if PrepareRefusal(input).Some? then PrepareRefusal(input)
                                else if ref.Err? then Some(ref.error) else None)
  {
    hide StableId, KnownProvider, ModelPin, PrintableMediaType, StrictlyOrdered;
  }

  /** A prepare is refused without a trace exactly for its inputs, for an attempt that is decided already, or
      for a retry whose attempt before is not decided under the occurrence it names; what passes all this is
      recorded or refused by its clock and its numbers alone. */
  lemma PrepareRefusedFor(h: Hash, r: Recorder, input: PrepareInput, clock: PrepareClock) returns (e: Option<GatewayError>)
    requires RecorderInv(h, r)
    ensures InputRefusal(input, e)
    ensures var out := Prepare(h, r, input, clock);
            if r.manifest.status != Recording then out == (r, Err(RecorderFinalized))
            else if e.Some? then out == (r, Err(e.value))
            else if Known(r.log, input.logicalId, input.number) then out == (r, Err(AttemptDuplicate))
            else if input.number > 1 && !ParentKnown(r.log, input) then out == (r, Err(RetryParentNotRecorded))
            else PrepareAccepted(h, r, input)
  {
    InputRefusalHolds(h, input);
    LineageHolds(h, r, input);
    hide RecorderInv, InputRefusal, PrepareRefusal, ContentReference, LineageRefusal, Known, ParentKnown, Admit;
    var ref := ContentReference(h, input.body, input.mediaType);
    e := if PrepareRefusal(input).Some? then PrepareRefusal(input) else if ref.Err? then Some(ref.error) else None;
  }

  lemma LineageHolds(h: Hash, r: Recorder, input: PrepareInput)
    requires RecorderInv(h, r)
    ensures LineageRefusal(r, input) ==
              if Known(r.log, input.logicalId, input.number) then Some(AttemptDuplicate)
              else if input.number > 1 && !ParentKnown(r.log, input) then Some(RetryParentNotRecorded)
              else None
  {
    PriorIsKnown(h, r, input.logicalId, input.number);
    PriorIsKnown(h, r, input.logicalId, input.number - 1);
    hide RecorderInv, PriorAttempts;
  }

  /** The spool looks at a clean frame last, when the chain has already advanced: it refuses one whose number or
      predecessor is not the manifest's. */
  lemma SpoolRefuses(h: Hash, r: Recorder, at: Time, a: Attempt, detail: Detail)
    requires FrameIssues(h, NextFrame(h, r, at, a, detail)) == {}
    ensures var (r', out) := Emit(h, r, at, a, detail);
            && r'.chain.sequence == r.chain.sequence + 1
            && (r.chain.sequence != r.manifest.frameCount ==> out == Err(SpoolSequenceMismatch))
            && (r.chain.sequence == r.manifest.frameCount && r.chain.head != r.manifest.chainHead ==> out == Err(SpoolPreviousMismatch))
            && (r.chain.sequence == r.manifest.frameCount && r.chain.head == r.manifest.chainHead ==> out.Ok?)
            && (out.Err? ==> r'.log == r.log && r'.manifest == r.manifest)
  {
    hide FrameIssues;
  }

  // ----- the attempt -----

  /** Marking an attempt as dispatched sets its instant once, and only while it is open. */
  lemma MarkHolds(a: Handle, at: Time)
    ensures var (a', refused) := MarkDispatched(a, at);
            && a'.decision == a.decision && a'.censored == a.censored && a'.closed == a.closed
            && (refused.None? <==> !a.censored && !a.closed && a.dispatchedAt.None?)
            && (refused.None? ==> a'.dispatchedAt == Some(at)) && (refused.Some? ==> a' == a)
            && (refused == Some(CensoredCannotDispatch) <==> a.censored)
            && (refused == Some(AttemptClosed) <==> !a.censored && a.closed)
            && (refused == Some(AlreadyDispatched) <==> !a.censored && !a.closed && a.dispatchedAt.Some?)
  {
  }

  predicate UsageGiven(u: Usage) {
    && 0 <= u.input <= 9_007_199_254_740_991 && 0 <= u.output <= 9_007_199_254_740_991
    && (u.cacheRead.Some? ==> 0 <= u.cacheRead.value <= 9_007_199_254_740_991)
    && (u.cacheWrite.Some? ==> 0 <= u.cacheWrite.value <= 9_007_199_254_740_991)
    && (u.total.Some? ==> u.input + u.output <= u.total.value <= 9_007_199_254_740_991)
  }

  /** A success that is refused before anything is recorded, and for what; its attempt stays open. */
  lemma SuccessRefusedFor(h: Hash, r: Recorder, a: Handle, input: SuccessInput, clock: CloseClock)
    requires a.decision.IsDecision()
    ensures var out := Succeed(h, r, a, input, clock);
            if a.closed then out == (r, a, Err(AttemptClosed))
            else if a.dispatchedAt.None? then out == (r, a, Err(NotDispatched))
            else if !ModelPin(input.resolvedModel) then out == (r, a, Err(InputRefused(ResolvedModelInvalid)))
            else if !UsageGiven(input.usage) then out == (r, a, Err(InputRefused(UsageInvalid)))
            else if !(100 <= input.httpStatus <= 599) then out == (r, a, Err(InputRefused(HttpStatusInvalid)))
            else if !(200 <= input.httpStatus <= 299) then out == (r, a, Err(SuccessStatusRefused))
            else if |input.body| == 0 then out == (r, a, Err(ContentMissing))
            else if !PrintableMediaType(input.mediaType) then out == (r, a, Err(MediaTypeRefused))
            else out.1 == a.(closed := true)
  {
    hide ModelPin, PrintableMediaType, Emit;
  }

  /** Whether a failure carries what its outcome asks for. */
  predicate FailureGiven(input: FailureInput) {
    if input.outcome == TransportFailure then
      input.body.None? && input.mediaType.None? && input.resolvedModel.None? && input.usage.None? && input.httpStatus.None?
    else input.body.Some? && input.mediaType.Some? && input.httpStatus.Some?
  }

  predicate FailureOpen(a: Handle, input: FailureInput) {
    && !a.closed && a.dispatchedAt.Some? && StableId(input.failureCode)
    && (input.outcome == ProviderFailure || input.outcome == TransportFailure || input.outcome == ProtocolFailure)
    && (input.resolvedModel.Some? ==> ModelPin(input.resolvedModel.value)
                                      && input.resolvedModel.value == a.decision.body.attempt.requestedModel)
    && (input.usage.Some? ==> UsageGiven(input.usage.value))
    && (input.httpStatus.Some? ==> 100 <= input.httpStatus.value <= 599)
  }

  /** A failure that is refused before anything is recorded, and for what; its attempt stays open. */
  lemma FailureRefusedFor(h: Hash, r: Recorder, a: Handle, input: FailureInput, clock: CloseClock)
    requires a.decision.IsDecision()
    ensures var out := Fail(h, r, a, input, clock);
            && (a.closed ==> out == (r, a, Err(AttemptClosed)))
            && (!a.closed && a.dispatchedAt.None? ==> out == (r, a, Err(NotDispatched)))
            && (!FailureOpen(a, input) ==> out.0 == r && out.1 == a && out.2.Err?)
            && (FailureOpen(a, input) ==>
                  if !FailureGiven(input) then
                    out == (r, a, Err(if input.outcome == TransportFailure then TransportHasResponse else ResponseEvidenceMissing))
                  else if input.outcome == ProviderFailure && input.httpStatus.value < 400 then
                    out == (r, a, Err(ProviderStatusRefused))
                  else if input.outcome != TransportFailure && |input.body.value| == 0 then out == (r, a, Err(ContentMissing))
                  else if input.outcome != TransportFailure && !PrintableMediaType(input.mediaType.value) then
                    out == (r, a, Err(MediaTypeRefused))
                  else out.1 == a.(closed := true))
  {
    hide ModelPin, PrintableMediaType, Emit, StableId;
  }
}
