/** The recorder against the verifier: what exactly a recorded bundle is blocked for. */
module GatewayTheorems {
  import opened Common
  import opened GatewayFrames
  import opened GatewayRecording
  import opened GatewayInvariant
  import opened GatewayVerifier

  // ----- completeness -----

  /** The reply named another model than the request did. */
  predicate ResolvedElsewhere(f: Frame) {
    && f.IsAction()
    && f.body.detail.terminal.resolvedModel.Some?
    && f.body.detail.terminal.resolvedModel.value != f.body.attempt.requestedModel
  }

  predicate RecordsMismatch(log: seq<Frame>, b: Blocker) {
    b.MismatchRecorded? && exists i :: 0 <= i < |log| && ResolvedElsewhere(log[i]) && log[i].Occurrence() == b.occurrence
  }

  predicate DispatchedEarly(decision: Frame, action: Frame) {
    && decision.IsDecision() && action.IsAction()
    && decision.Occurrence() == action.Occurrence()
    && action.body.detail.terminal.dispatchStartedAt.Some?
    && decision.body.detail.policy.body.evaluatedAt > action.body.detail.terminal.dispatchStartedAt.value
  }

  /** The instants written into the bundle never run backwards. */
  ghost predicate ClockOrdered(m: Manifest, log: seq<Frame>) {
    && (forall i :: 1 <= i < |log| ==> log[i - 1].body.observedAt <= log[i].body.observedAt)
    && (forall i, j :: 0 <= i < |log| && 0 <= j < |log| ==> !DispatchedEarly(log[i], log[j]))
    && (log != [] ==> m.createdAt <= log[0].body.observedAt)
    && (log != [] && m.finalizedAt.Some? ==> log[|log| - 1].body.observedAt <= m.finalizedAt.value)
  }

  predicate ClockBlocks(m: Manifest, log: seq<Frame>, b: Blocker) {
    match b
    case TimestampRegressed(i) => 1 <= i < |log| && log[i].body.observedAt < log[i - 1].body.observedAt
    case PairBlocker(issue, o) =>
      && issue == PolicyNotPreDispatch
      && exists i, j :: 0 <= i < |log| && 0 <= j < |log| && log[i].Occurrence() == o && DispatchedEarly(log[i], log[j])
    case ManifestBlocker(issue) =>
      || (issue == FinalizedAtInvalid && m.finalizedAt.Some? && m.finalizedAt.value < m.createdAt)
      || (issue in {FinalizedBeforeLastFrame, CreatedAfterFirstFrame} && TailRaises(issue, m, log))
    case _ => false
  }

  lemma MismatchMeansElsewhere(h: Hash, f: Frame)
    requires Clean(h, f)
    ensures f.IsMismatch() <==> ResolvedElsewhere(f)
  {
    assert !Raises(h, MismatchShapeInvalid, f) && !Raises(h, ResolvedModelMismatch, f);
  }

  /** Of the frame-by-frame checks a recorded log can only fail the clock and identity ones. */
  lemma RecordedFrameBlocks(h: Hash, r: Recorder, i: nat, b: Blocker)
    requires RecorderInv(h, r) && i < |r.log|
    ensures NewlyBlocks(h, r.manifest, r.log, i, b) <==>
              || (b == TimestampRegressed(i) && i > 0 && r.log[i].body.observedAt < r.log[i - 1].body.observedAt)
              || (ResolvedElsewhere(r.log[i]) && b == MismatchRecorded(r.log[i].Occurrence()))
  {
    hide Answered, Lineage, LogicalMatches, AccountsAgree, Raises;
    assert Clean(h, r.log[i]);
    MismatchMeansElsewhere(h, r.log[i]);
  }

  lemma EqualWhenSubsetAndAsLarge<T>(a: set<T>, b: set<T>)
    requires a <= b && |a| == |b|
    ensures a == b
  {
    if a != b {
      ProperSubsetIsSmaller(a, b);
    }
  }

  /** Once nothing is open, every mentioned occurrence has one decision and, later, its answer. */
  lemma RecordedPair(h: Hash, r: Recorder, o: Digest)
    requires RecorderInv(h, r) && r.openAttempts == 0
    requires Mentioned(r.log, |r.log|, o)
    ensures var pair := PairOf(r.log, |r.log|, o);
            && pair.decision.Some? && pair.action.Some?
            && pair.decision.value < pair.action.value
            && Answers(r.log[pair.action.value], r.log[pair.decision.value])
            && forall i :: 0 <= i < |r.log| && r.log[i].Occurrence() == o ==>
                 i == pair.decision.value || i == pair.action.value
  {
    hide Lineage, LogicalMatches, CountersAgree, Answers;
    EqualWhenSubsetAndAsLarge(ActionOccurrences(r.log), DecisionOccurrences(r.log));
    var pair := PairOf(r.log, |r.log|, o);
    assert o in ActionOccurrences(r.log) && o in DecisionOccurrences(r.log);
    assert HasAnswered(r.log, pair.action.value);
    var i :| 0 <= i < pair.action.value && r.log[i].IsDecision() && Answers(r.log[pair.action.value], r.log[i]);
    AnswersShareOccurrence(r.log[pair.action.value], r.log[i]);
    assert i == pair.decision.value;
  }

  lemma AnswersShareOccurrence(action: Frame, decision: Frame)
    requires action.IsAction() && decision.IsDecision() && Answers(action, decision)
    ensures action.Occurrence() == decision.Occurrence()
  {
  }

  lemma AnswerRaises(issue: PairIssue, decision: Frame, action: Frame)
    requires action.IsAction() && decision.IsDecision() && Answers(action, decision)
    ensures MatchRaises(issue, decision, action) <==> issue == PolicyNotPreDispatch && DispatchedEarly(decision, action)
  {
  }

  lemma RecordedPairBlocks(h: Hash, r: Recorder, b: Blocker)
    requires RecorderInv(h, r) && r.openAttempts == 0
    ensures PairBlocks(r.log, b) <==> b.PairBlocker? && ClockBlocks(r.manifest, r.log, b)
  {
    hide RecorderInv, Answers, MatchRaises;
    if b.PairBlocker? {
      if Mentioned(r.log, |r.log|, b.occurrence) {
        RecordedPair(h, r, b.occurrence);
        var pair := PairOf(r.log, |r.log|, b.occurrence);
        AnswerRaises(b.pairIssue, r.log[pair.decision.value], r.log[pair.action.value]);
        AnswersShareOccurrence(r.log[pair.action.value], r.log[pair.decision.value]);
      }
    }
  }

  lemma RecordedLineage(h: Hash, r: Recorder, b: Blocker)
    requires RecorderInv(h, r)
    ensures !LineageBlocks(r.log, b)
  {
    hide Answered, LogicalMatches, AccountsAgree, CountersAgree;
    if (b.PredecessorMissing? || b.PredecessorMismatch?) && b.number > 1 {
      var own := LastAttempt(r.log, |r.log|, b.logicalId, b.number);
      if own.Some? {
        assert HasParent(r.log, own.value);
        var p :| 0 <= p < own.value && IsParent(r.log[p], r.log[own.value]);
        assert DecidesAttempt(r.log[p], b.logicalId, b.number - 1);
        var parent := LastAttempt(r.log, |r.log|, b.logicalId, b.number - 1);
        assert parent == Some(p);
        assert LastDecision(r.log, |r.log|, r.log[own.value].Occurrence()) == own;
      }
    }
  }

  lemma {:induction false} OccurrencesBounded(log: seq<Frame>)
    ensures |ActionOccurrences(log)| <= |log|
    ensures |DecisionOccurrences(log)| <= |log|
  {
    if log != [] {
      var rest := log[..|log| - 1];
      OccurrencesBounded(rest);
      assert log == rest + [log[|log| - 1]];
      OccurrencesGrow(rest, log[|log| - 1]);
    }
  }

  lemma RecordedManifest(h: Hash, r: Recorder, b: Blocker)
    requires RecorderInv(h, r) && r.manifest.status == Finalized && |r.log| <= MAX_SAFE_INTEGER
    requires b.ManifestBlocker?
    ensures ManifestRaises(b.manifestIssue, r.manifest) || TailRaises(b.manifestIssue, r.manifest, r.log)
            <==> ClockBlocks(r.manifest, r.log, b)
  {
    hide LogSound, Chained;
    OccurrencesBounded(r.log);
  }

  lemma RecordedFramesBlock(h: Hash, r: Recorder, b: Blocker)
    requires RecorderInv(h, r)
    ensures FramesBlock(h, r.manifest, r.log, |r.log|, b) <==>
              RecordsMismatch(r.log, b) || (b.TimestampRegressed? && ClockBlocks(r.manifest, r.log, b))
  {
    hide RecorderInv, NewlyBlocks, TailRaises, ResolvedElsewhere;
    if FramesBlock(h, r.manifest, r.log, |r.log|, b) {
      var i :| 0 <= i < |r.log| && NewlyBlocks(h, r.manifest, r.log, i, b);
      RecordedFrameBlocks(h, r, i, b);
    }
    if b.TimestampRegressed? && ClockBlocks(r.manifest, r.log, b) {
      RecordedFrameBlocks(h, r, b.index, b);
      assert NewlyBlocks(h, r.manifest, r.log, b.index, b);
    }
    if RecordsMismatch(r.log, b) {
      var i :| 0 <= i < |r.log| && ResolvedElsewhere(r.log[i]) && r.log[i].Occurrence() == b.occurrence;
      assert b == MismatchRecorded(r.log[i].Occurrence());
      RecordedFrameBlocks(h, r, i, b);
      assert NewlyBlocks(h, r.manifest, r.log, i, b);
    }
  }

  /** The exact blockers of any bundle the recorder can produce. */
  lemma RecordedBundleBlockers(h: Hash, r: Recorder, b: Blocker)
    requires RecorderInv(h, r) && r.manifest.status == Finalized && |r.log| <= MAX_SAFE_INTEGER
    ensures Blocks(h, r.manifest, r.log, b) <==> RecordsMismatch(r.log, b) || ClockBlocks(r.manifest, r.log, b)
  {
    hide LogSound, CountersAgree, FramesBlock, PairBlocks, LineageBlocks, ManifestRaises, TailRaises, Mentioned;
    if b.ManifestBlocker? {
      RecordedManifest(h, r, b);
    }
    RecordedPairBlocks(h, r, b);
    RecordedLineage(h, r, b);
    RecordedFramesBlock(h, r, b);
  }

  lemma ClockOrderedMeansNoClockBlocker(m: Manifest, log: seq<Frame>)
    requires log != []
    ensures ClockOrdered(m, log) <==> forall b :: !ClockBlocks(m, log, b)
  {
    if ClockOrdered(m, log) {
      ObservedSorted(log, 0, |log| - 1);
      forall b
        ensures !ClockBlocks(m, log, b)
      {
      }
    } else if forall b :: !ClockBlocks(m, log, b) {
      assert !ClockBlocks(m, log, ManifestBlocker(CreatedAfterFirstFrame));
      assert !ClockBlocks(m, log, ManifestBlocker(FinalizedBeforeLastFrame));
      forall i | 1 <= i < |log|
        ensures log[i - 1].body.observedAt <= log[i].body.observedAt
      {
        assert !ClockBlocks(m, log, TimestampRegressed(i));
      }
      forall i, j | 0 <= i < |log| && 0 <= j < |log|
        ensures !DispatchedEarly(log[i], log[j])
      {
        assert !ClockBlocks(m, log, PairBlocker(PolicyNotPreDispatch, log[i].Occurrence()));
      }
      assert false;
    }
  }

  lemma {:induction false} ObservedSorted(log: seq<Frame>, i: nat, j: nat)
    requires i <= j < |log|
    requires forall k :: 1 <= k < |log| ==> log[k - 1].body.observedAt <= log[k].body.observedAt
    ensures log[i].body.observedAt <= log[j].body.observedAt
  {
    if i < j {
      ObservedSorted(log, i, j - 1);
    }
  }

  /** Completeness with its exact condition: for every interleaving of calls that ends finalized,
      the verifier reports precisely the identity mismatches of the session if and only if
      the recorded clock readings are in order. */
  lemma GatewayCompleteness(h: Hash, session: string, createdAt: Time, calls: seq<Call>)
    requires OccurrenceCollisionFree(h) && StableId(session)
    requires Play(h, Start(session, createdAt), calls).recorder.manifest.status == Finalized
    requires |Play(h, Start(session, createdAt), calls).recorder.log| <= MAX_SAFE_INTEGER
    ensures var r := Play(h, Start(session, createdAt), calls).recorder;
            (forall b :: Blocks(h, r.manifest, r.log, b) <==> RecordsMismatch(r.log, b))
            <==> ClockOrdered(r.manifest, r.log)
  {
    StartInv(h, session, createdAt);
    RunKeeps(h, Start(session, createdAt), calls);
    var r := Play(h, Start(session, createdAt), calls).recorder;
    assert RecorderInv(h, r) && r.log != [];
    hide Play, RecorderInv, Blocks, ClockOrdered;
    ClockOrderedMeansNoClockBlocker(r.manifest, r.log);
    forall b
      ensures Blocks(h, r.manifest, r.log, b) <==> RecordsMismatch(r.log, b) || ClockBlocks(r.manifest, r.log, b)
    {
      RecordedBundleBlockers(h, r, b);
    }
  }
}
