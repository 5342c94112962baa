/** The verifier against arbitrary bundles: what an accepted manifest and log must look like,
    whoever wrote them. */
module GatewaySoundness {
  import opened Common
  import opened GatewayFrames
  import opened GatewayRecording
  import opened GatewayInvariant
  import opened GatewayVerifier
  import GatewayTheorems

  ghost predicate Accepted(h: Hash, m: Manifest, frames: seq<Frame>) {
    forall b :: !Blocks(h, m, frames, b)
  }

  /** Frames d and a are the only two about their occurrence, the decision first, and a answers d
      after the policy was evaluated. */
  ghost predicate LonePair(frames: seq<Frame>, d: nat, a: nat)
    requires d < |frames| && a < |frames|
  {
    && d < a
    && frames[d].IsDecision() && frames[a].IsAction()
    && Answers(frames[a], frames[d])
    && !GatewayTheorems.DispatchedEarly(frames[d], frames[a])
    && forall i :: 0 <= i < |frames| && frames[i].Occurrence() == frames[d].Occurrence() ==> i == d || i == a
  }

  ghost predicate InLonePair(frames: seq<Frame>, i: nat) {
    exists d, a :: 0 <= d < |frames| && 0 <= a < |frames| && (i == d || i == a) && LonePair(frames, d, a)
  }

  lemma AcceptedFrame(h: Hash, m: Manifest, frames: seq<Frame>, i: nat)
    requires Accepted(h, m, frames) && i < |frames|
    ensures forall b :: !ChainBlocks(h, m, frames, i, b) && !RepeatBlocks(frames, i, b)
  {
    hide ChainBlocks, RepeatBlocks, PairBlocks, LineageBlocks, ManifestRaises, TailRaises;
    forall b
      ensures !ChainBlocks(h, m, frames, i, b) && !RepeatBlocks(frames, i, b)
    {
      assert !Blocks(h, m, frames, b);
      assert !NewlyBlocks(h, m, frames, i, b);
    }
  }

  lemma AcceptedIsChained(h: Hash, m: Manifest, frames: seq<Frame>)
    requires Accepted(h, m, frames)
    ensures Chained(h, m.session, frames)
    ensures forall i :: 1 <= i < |frames| ==> frames[i - 1].body.observedAt <= frames[i].body.observedAt
  {
    forall i | 0 <= i < |frames|
      ensures && frames[i].body.session == m.session && frames[i].body.sequence == i
              && frames[i].body.previous == HeadOf(frames[..i]) && Clean(h, frames[i])
      ensures i > 0 ==> frames[i - 1].body.observedAt <= frames[i].body.observedAt
    {
      AcceptedFrame(h, m, frames, i);
      hide Raises;
      assert !ChainBlocks(h, m, frames, i, SessionMismatch(i));
      assert !ChainBlocks(h, m, frames, i, SequenceGap(i));
      assert !ChainBlocks(h, m, frames, i, PreviousMismatch(i));
      assert !ChainBlocks(h, m, frames, i, TimestampRegressed(i));
      forall issue
        ensures !Raises(h, issue, frames[i])
      {
        assert !ChainBlocks(h, m, frames, i, FrameBlocker(issue, i));
      }
    }
  }

  lemma AcceptedIsNotEmpty(h: Hash, m: Manifest, frames: seq<Frame>)
    requires Accepted(h, m, frames)
    ensures frames != []
  {
    assert !Blocks(h, m, frames, ManifestBlocker(LogEmpty));
  }

  lemma AcceptedIsDistinct(h: Hash, m: Manifest, frames: seq<Frame>)
    requires Accepted(h, m, frames)
    ensures Distinct(frames)
  {
    hide ChainBlocks, Blocks;
    forall i, j | 0 <= i < j < |frames|
      ensures frames[i].IsDecision() && frames[j].IsDecision() ==>
                !SameAttempt(frames[i], frames[j]) && frames[i].Occurrence() != frames[j].Occurrence()
      ensures frames[i].IsAction() && frames[j].IsAction() ==> frames[i].Occurrence() != frames[j].Occurrence()
    {
      AcceptedFrame(h, m, frames, j);
      var f := frames[j];
      assert !RepeatBlocks(frames, j, DecisionDuplicate(f.Occurrence()));
      assert !RepeatBlocks(frames, j, ActionDuplicate(f.Occurrence()));
      assert !RepeatBlocks(frames, j, LogicalAttemptDuplicate(f.body.attempt.logicalId, f.body.attempt.number));
      if SameAttempt(frames[i], f) && frames[i].IsDecision() {
        assert DecidesAttempt(frames[i], f.body.attempt.logicalId, f.body.attempt.number);
      }
    }
  }

  lemma AcceptedMatch(frames: seq<Frame>, d: nat, a: nat)
    requires d < |frames| && a < |frames| && frames[d].IsDecision() && frames[a].IsAction()
    requires frames[d].Occurrence() == frames[a].Occurrence()
    requires NamesReason(frames[a])
    requires forall issue :: !MatchRaises(issue, frames[d], frames[a])
    ensures Answers(frames[a], frames[d]) && !GatewayTheorems.DispatchedEarly(frames[d], frames[a])
  {
    assert !MatchRaises(PairBindingMismatch, frames[d], frames[a]);
    assert !MatchRaises(ActionPolicyMismatch, frames[d], frames[a]);
    assert !MatchRaises(PolicyOutcomeMismatch, frames[d], frames[a]);
    assert !MatchRaises(CensorReasonNotInPolicy, frames[d], frames[a]);
    assert !MatchRaises(PolicyNotPreDispatch, frames[d], frames[a]);
  }

  /** A censored action names a reason. */
  predicate NamesReason(f: Frame) {
    f.IsAction() && Censored(f.body.detail.terminal.outcome) ==> f.body.detail.terminal.failureCode.Some?
  }

  /** Every occurrence in an accepted log is one decision and one later action answering it. */
  lemma AcceptedPairs(h: Hash, m: Manifest, frames: seq<Frame>, i: nat)
    requires Accepted(h, m, frames) && i < |frames|
    ensures InLonePair(frames, i)
  {
    hide FramesBlock, LineageBlocks, ManifestRaises, TailRaises, MatchRaises, Answers;
    var o := frames[i].Occurrence();
    var pair := PairOf(frames, |frames|, o);
    assert Mentioned(frames, |frames|, o);
    forall issue
      ensures !PairRaises(issue, frames, pair)
    {
      assert !Blocks(h, m, frames, PairBlocker(issue, o));
    }
    assert !PairRaises(DecisionMissing, frames, pair);
    assert !PairRaises(ActionMissing, frames, pair);
    assert !PairRaises(ActionPrecedesDecision, frames, pair);
    forall issue
      ensures !MatchRaises(issue, frames[pair.decision.value], frames[pair.action.value])
    {
      assert !PairRaises(issue, frames, pair);
    }
    hide PairRaises;
    AcceptedIsDistinct(h, m, frames);
    AcceptedIsChained(h, m, frames);
    hide Accepted, Chained;
    CensorNamesReason(h, m, frames, pair.action.value);
    AcceptedMatch(frames, pair.decision.value, pair.action.value);
    assert LonePair(frames, pair.decision.value, pair.action.value);
  }

  lemma CensorNamesReason(h: Hash, m: Manifest, frames: seq<Frame>, a: nat)
    requires Chained(h, m.session, frames) && a < |frames|
    ensures NamesReason(frames[a])
  {
    assert !Raises(h, CensorShapeInvalid, frames[a]);
  }

  lemma {:induction false} CountsSplit(frames: seq<Frame>)
    requires Distinct(frames)
    ensures |frames| == |DecisionOccurrences(frames)| + |ActionOccurrences(frames)|
  {
    if frames != [] {
      DistinctBeforeLast(frames);
      CountsSplit(frames[..|frames| - 1]);
      CountsStep(frames[..|frames| - 1], frames[|frames| - 1]);
      assert frames == frames[..|frames| - 1] + [frames[|frames| - 1]];
      hide DecisionOccurrences, ActionOccurrences, Distinct;
    }
  }

  lemma CountsStep(rest: seq<Frame>, last: Frame)
    requires |rest| == |DecisionOccurrences(rest)| + |ActionOccurrences(rest)|
    requires last.IsDecision() ==> last.Occurrence() !in DecisionOccurrences(rest)
    requires last.IsAction() ==> last.Occurrence() !in ActionOccurrences(rest)
    ensures |rest| + 1 == |DecisionOccurrences(rest + [last])| + |ActionOccurrences(rest + [last])|
  {
    OccurrencesGrow(rest, last);
  }

  lemma DistinctBeforeLast(frames: seq<Frame>)
    requires Distinct(frames) && frames != []
    ensures var rest, last := frames[..|frames| - 1], frames[|frames| - 1];
            && Distinct(rest)
            && (last.IsDecision() ==> last.Occurrence() !in DecisionOccurrences(rest))
            && (last.IsAction() ==> last.Occurrence() !in ActionOccurrences(rest))
  {
  }

  /** A log of lone pairs has twice as many frames as the manifest counts attempts. */
  lemma AcceptedCount(h: Hash, m: Manifest, frames: seq<Frame>)
    requires Accepted(h, m, frames)
    ensures m.frameCount == |frames| == 2 * m.attemptCount && |frames| > 0
    ensures m.chainHead == HeadOf(frames) && m.status == Finalized
  {
    AcceptedIsDistinct(h, m, frames);
    CountsSplit(frames);
    hide FramesBlock, PairBlocks, LineageBlocks, ManifestRaises;
    assert !Blocks(h, m, frames, ManifestBlocker(FrameCountMismatch));
    assert !Blocks(h, m, frames, ManifestBlocker(AttemptCountMismatch));
    assert !Blocks(h, m, frames, ManifestBlocker(ChainHeadMismatch));
    assert !Blocks(h, m, frames, ManifestBlocker(NotFinalized));
    assert !Blocks(h, m, frames, ManifestBlocker(LogEmpty));
    hide Blocks;
    forall o
      ensures o in DecisionOccurrences(frames) <==> o in ActionOccurrences(frames)
    {
      if o in DecisionOccurrences(frames) || o in ActionOccurrences(frames) {
        var i :| 0 <= i < |frames| && frames[i].Occurrence() == o;
        AcceptedPairs(h, m, frames, i);
        var d, a :| 0 <= d < |frames| && 0 <= a < |frames| && (i == d || i == a) && LonePair(frames, d, a);
      }
    }
    assert DecisionOccurrences(frames) == ActionOccurrences(frames);
  }

  ghost predicate AttemptRecorded(frames: seq<Frame>, id: string, n: int) {
    exists i :: 0 <= i < |frames| && DecidesAttempt(frames[i], id, n)
  }

  lemma AcceptedParent(h: Hash, m: Manifest, frames: seq<Frame>, i: nat)
    requires Accepted(h, m, frames) && i < |frames| && frames[i].IsDecision() && frames[i].body.attempt.number > 1
    ensures exists p :: 0 <= p < |frames| && IsParent(frames[p], frames[i])
  {
    AcceptedIsDistinct(h, m, frames);
    hide FramesBlock, PairBlocks, ManifestRaises, TailRaises;
    var id, n := frames[i].body.attempt.logicalId, frames[i].body.attempt.number;
    assert DecidesAttempt(frames[i], id, n);
    assert LastAttempt(frames, |frames|, id, n) == Some(i);
    assert LastDecision(frames, |frames|, frames[i].Occurrence()) == Some(i);
    assert !Blocks(h, m, frames, PredecessorMissing(id, n));
    assert !Blocks(h, m, frames, PredecessorMismatch(id, n));
    var p := LastAttempt(frames, |frames|, id, n - 1);
    assert p.Some?;
    assert IsParent(frames[p.value], frames[i]);
  }

  lemma PositiveNumbers(h: Hash, m: Manifest, frames: seq<Frame>, i: nat)
    requires Accepted(h, m, frames) && i < |frames|
    ensures frames[i].body.attempt.number >= 1
  {
    AcceptedIsChained(h, m, frames);
    assert Clean(h, frames[i]);
    assert !Raises(h, AttemptNumberInvalid, frames[i]);
  }

  lemma {:induction false} AttemptsDownTo(h: Hash, m: Manifest, frames: seq<Frame>, id: string, k: int, n: int)
    requires Accepted(h, m, frames)
    requires 1 <= n <= k && AttemptRecorded(frames, id, k)
    ensures AttemptRecorded(frames, id, n)
    decreases k - n
  {
    hide Accepted;
    if n < k {
      AttemptsDownTo(h, m, frames, id, k, n + 1);
      var i :| 0 <= i < |frames| && DecidesAttempt(frames[i], id, n + 1);
      AcceptedParent(h, m, frames, i);
      var p :| 0 <= p < |frames| && IsParent(frames[p], frames[i]);
      assert DecidesAttempt(frames[p], id, n);
    }
  }

  function HighestAttempt(frames: seq<Frame>, id: string): (k: int)
    ensures k >= 0
    ensures forall i :: 0 <= i < |frames| && frames[i].IsDecision() && frames[i].body.attempt.logicalId == id ==>
              frames[i].body.attempt.number <= k
    ensures k > 0 ==> AttemptRecorded(frames, id, k)
  {
    if frames == [] then 0
    else
      var last := frames[|frames| - 1];
      var k := HighestAttempt(frames[..|frames| - 1], id);
      assert forall n :: AttemptRecorded(frames[..|frames| - 1], id, n) ==> AttemptRecorded(frames, id, n) by {
        assert forall i :: 0 <= i < |frames| - 1 ==> frames[..|frames| - 1][i] == frames[i];
        assert forall n, i :: 0 <= i < |frames| - 1 && DecidesAttempt(frames[..|frames| - 1][i], id, n) ==>
          DecidesAttempt(frames[i], id, n);
      }
      if last.IsDecision() && last.body.attempt.logicalId == id && last.body.attempt.number > k then
        assert DecidesAttempt(frames[|frames| - 1], id, last.body.attempt.number);
        last.body.attempt.number
      else k
  }

  /** Soundness: an accepted bundle is a set of lone decision/action pairs, twice as many frames as
      attempts, whose attempt numbers under every logical request are exactly 1..k with every
      retry naming the occurrence of the attempt before it. */
  lemma GatewaySoundness(h: Hash, m: Manifest, frames: seq<Frame>)
    requires Accepted(h, m, frames)
    ensures Chained(h, m.session, frames)
    ensures m.frameCount == |frames| == 2 * m.attemptCount && |frames| > 0
    ensures m.chainHead == HeadOf(frames) && m.status == Finalized
    ensures forall i :: 0 <= i < |frames| ==> InLonePair(frames, i)
    ensures forall id, n :: AttemptRecorded(frames, id, n) <==> 1 <= n <= HighestAttempt(frames, id)
    ensures forall i :: 0 <= i < |frames| && frames[i].IsDecision() && frames[i].body.attempt.number > 1 ==>
              exists p :: 0 <= p < |frames| && IsParent(frames[p], frames[i])
  {
    AcceptedIsChained(h, m, frames);
    AcceptedCount(h, m, frames);
    hide Accepted, Chained, InLonePair, IsParent;
    forall i | 0 <= i < |frames|
      ensures InLonePair(frames, i)
    {
      AcceptedPairs(h, m, frames, i);
    }
    forall id, n
      ensures AttemptRecorded(frames, id, n) <==> 1 <= n <= HighestAttempt(frames, id)
    {
      if AttemptRecorded(frames, id, n) {
        var i :| 0 <= i < |frames| && DecidesAttempt(frames[i], id, n);
        PositiveNumbers(h, m, frames, i);
      }
      if 1 <= n <= HighestAttempt(frames, id) {
        AttemptsDownTo(h, m, frames, id, HighestAttempt(frames, id), n);
      }
    }
    forall i | 0 <= i < |frames| && frames[i].IsDecision() && frames[i].body.attempt.number > 1
      ensures exists p :: 0 <= p < |frames| && IsParent(frames[p], frames[i])
    {
      AcceptedParent(h, m, frames, i);
    }
  }
}
