/** The independent bundle verifier (src/gateway-verify.ts). It sees only the manifest and the
    frame log and rebuilds everything else with two maps. `Blocks` says, without any map,
    exactly which blockers a bundle deserves; the loops are proved against it. */
module GatewayVerifier {
  import opened Common
  import opened GatewayFrames
  import opened GatewayRecording

  datatype ManifestIssue =
    | ManifestSessionInvalid
    | FrameCountInvalid
    | AttemptCountInvalid
    | FinalizedAtInvalid
    | RecordingFinalizedConflict
    | FinalizationIncomplete
    | FrameCountMismatch
    | AttemptCountMismatch
    | ChainHeadMismatch
    | NotFinalized
    | LogEmpty
    | FinalizedBeforeLastFrame
    | CreatedAfterFirstFrame

  datatype PairIssue =
    | DecisionMissing
    | ActionMissing
    | ActionPrecedesDecision
    | PairBindingMismatch
    | ActionPolicyMismatch
    | PolicyOutcomeMismatch
    | CensorReasonNotInPolicy
    | PolicyNotPreDispatch

  datatype Blocker =
    | ManifestBlocker(manifestIssue: ManifestIssue)
    | FrameBlocker(frameIssue: FrameIssue, index: nat)
    | SessionMismatch(index: nat)
    | SequenceGap(index: nat)
    | PreviousMismatch(index: nat)
    | TimestampRegressed(index: nat)
    | DecisionDuplicate(occurrence: Digest)
    | ActionDuplicate(occurrence: Digest)
    | LogicalAttemptDuplicate(logicalId: string, number: int)
    | MismatchRecorded(occurrence: Digest)
    | PairBlocker(pairIssue: PairIssue, occurrence: Digest)
    | PredecessorMissing(logicalId: string, number: int)
    | PredecessorMismatch(logicalId: string, number: int)

  datatype Pair = Pair(decision: Option<nat>, action: Option<nat>)

  // ----- what the log says, by index -----

  function LastDecision(frames: seq<Frame>, k: nat, o: Digest): (r: Option<nat>)
    requires k <= |frames|
    ensures r.Some? ==> r.value < k && frames[r.value].IsDecision() && frames[r.value].Occurrence() == o
    ensures forall i :: 0 <= i < k && frames[i].IsDecision() && frames[i].Occurrence() == o ==> r.Some? && i <= r.value
  {
    if k == 0 then None
    else if frames[k - 1].IsDecision() && frames[k - 1].Occurrence() == o then Some(k - 1)
    else LastDecision(frames, k - 1, o)
  }

  function LastAction(frames: seq<Frame>, k: nat, o: Digest): (r: Option<nat>)
    requires k <= |frames|
    ensures r.Some? ==> r.value < k && frames[r.value].IsAction() && frames[r.value].Occurrence() == o
    ensures forall i :: 0 <= i < k && frames[i].IsAction() && frames[i].Occurrence() == o ==> r.Some? && i <= r.value
  {
    if k == 0 then None
    else if frames[k - 1].IsAction() && frames[k - 1].Occurrence() == o then Some(k - 1)
    else LastAction(frames, k - 1, o)
  }

  predicate DecidesAttempt(f: Frame, id: string, n: int) {
    f.IsDecision() && f.body.attempt.logicalId == id && f.body.attempt.number == n
  }

  function LastAttempt(frames: seq<Frame>, k: nat, id: string, n: int): (r: Option<nat>)
    requires k <= |frames|
    ensures r.Some? ==> r.value < k && DecidesAttempt(frames[r.value], id, n)
    ensures forall i :: 0 <= i < k && DecidesAttempt(frames[i], id, n) ==> r.Some? && i <= r.value
  {
    if k == 0 then None
    else if DecidesAttempt(frames[k - 1], id, n) then Some(k - 1)
    else LastAttempt(frames, k - 1, id, n)
  }

  // ----- the blockers a bundle deserves -----

  predicate ManifestRaises(issue: ManifestIssue, m: Manifest) {
    match issue
    case ManifestSessionInvalid => !StableId(m.session)
    case FrameCountInvalid => !SafeInteger(m.frameCount) || m.frameCount < 0
    case AttemptCountInvalid => !SafeInteger(m.attemptCount) || m.attemptCount < 0
    case FinalizedAtInvalid => m.finalizedAt.Some? && m.finalizedAt.value < m.createdAt
    case RecordingFinalizedConflict => m.status == Recording && m.finalizedAt.Some?
    case FinalizationIncomplete => m.status == Finalized && m.finalizedAt.None?
    case _ => false
  }

  predicate TailRaises(issue: ManifestIssue, m: Manifest, frames: seq<Frame>) {
    match issue
    case FrameCountMismatch => m.frameCount != |frames|
    case AttemptCountMismatch => m.attemptCount != |ActionOccurrences(frames)|
    case ChainHeadMismatch => m.chainHead != HeadOf(frames)
    case NotFinalized => m.status != Finalized
    case LogEmpty => frames == []
    case FinalizedBeforeLastFrame =>
      m.finalizedAt.Some? && frames != [] && m.finalizedAt.value < frames[|frames| - 1].body.observedAt
    case CreatedAfterFirstFrame => frames != [] && m.createdAt > frames[0].body.observedAt
    case _ => false
  }

  /** Blocker b is deserved by frame i and its place in the chain. */
  predicate ChainBlocks(h: Hash, m: Manifest, frames: seq<Frame>, i: nat, b: Blocker)
    requires i < |frames|
  {
    var f := frames[i];
    match b
    case FrameBlocker(issue, j) => j == i && Raises(h, issue, f)
    case SessionMismatch(j) => j == i && f.body.session != m.session
    case SequenceGap(j) => j == i && f.body.sequence != i
    case PreviousMismatch(j) => j == i && f.body.previous != HeadOf(frames[..i])
    case TimestampRegressed(j) => j == i && i > 0 && f.body.observedAt < frames[i - 1].body.observedAt
    case _ => false
  }

  /** Blocker b is deserved by frame i and the frames before it with the same keys. */
  predicate RepeatBlocks(frames: seq<Frame>, i: nat, b: Blocker)
    requires i < |frames|
  {
    var f := frames[i];
    match b
    case DecisionDuplicate(o) => f.IsDecision() && f.Occurrence() == o && LastDecision(frames, i, o).Some?
    case ActionDuplicate(o) => f.IsAction() && f.Occurrence() == o && LastAction(frames, i, o).Some?
    case LogicalAttemptDuplicate(id, n) => DecidesAttempt(f, id, n) && LastAttempt(frames, i, id, n).Some?
    case MismatchRecorded(o) => f.IsMismatch() && f.Occurrence() == o
    case _ => false
  }

  predicate NewlyBlocks(h: Hash, m: Manifest, frames: seq<Frame>, i: nat, b: Blocker)
    requires i < |frames|
  {
    ChainBlocks(h, m, frames, i, b) || RepeatBlocks(frames, i, b)
  }

  predicate FramesBlock(h: Hash, m: Manifest, frames: seq<Frame>, k: nat, b: Blocker)
    requires k <= |frames|
  {
    exists i :: 0 <= i < k && NewlyBlocks(h, m, frames, i, b)
  }

  function ExpectedCensor(p: PolicyBody): Option<Outcome> {
    if p.verdict == Blocked then Some(CensorOutcome(p)) else None
  }

  predicate MatchRaises(issue: PairIssue, decision: Frame, action: Frame)
    requires decision.IsDecision() && action.IsAction()
  {
    var p := decision.body.detail.policy;
    var t := action.body.detail.terminal;
    var expected := ExpectedCensor(p.body);
    match issue
    case PairBindingMismatch => action.body.attempt != decision.body.attempt
    case ActionPolicyMismatch => action.body.detail.policyReceiptSha != p.receiptSha
    case PolicyOutcomeMismatch =>
      (expected.Some? && t.outcome != expected.value) || (expected.None? && Censored(t.outcome))
    case CensorReasonNotInPolicy =>
      expected.Some? && t.failureCode.Some? && t.failureCode.value !in p.body.reasonCodes
    case PolicyNotPreDispatch => t.dispatchStartedAt.Some? && p.body.evaluatedAt > t.dispatchStartedAt.value
    case _ => false
  }

  predicate PairRaises(issue: PairIssue, frames: seq<Frame>, pair: Pair)
    requires pair.decision.Some? ==> pair.decision.value < |frames| && frames[pair.decision.value].IsDecision()
    requires pair.action.Some? ==> pair.action.value < |frames| && frames[pair.action.value].IsAction()
  {
    if pair.decision.None? then issue == DecisionMissing
    else if pair.action.None? then issue == ActionMissing
    else
      || (issue == ActionPrecedesDecision && pair.action.value <= pair.decision.value)
      || MatchRaises(issue, frames[pair.decision.value], frames[pair.action.value])
  }

  function PairOf(frames: seq<Frame>, k: nat, o: Digest): Pair
    requires k <= |frames|
  {
    Pair(LastDecision(frames, k, o), LastAction(frames, k, o))
  }

  predicate Mentioned(frames: seq<Frame>, k: nat, o: Digest)
    requires k <= |frames|
  {
    LastDecision(frames, k, o).Some? || LastAction(frames, k, o).Some?
  }

  predicate PairBlocks(frames: seq<Frame>, b: Blocker) {
    && b.PairBlocker?
    && Mentioned(frames, |frames|, b.occurrence)
    && PairRaises(b.pairIssue, frames, PairOf(frames, |frames|, b.occurrence))
  }

  predicate LineageBlocks(frames: seq<Frame>, b: Blocker) {
    && (b.PredecessorMissing? || b.PredecessorMismatch?)
    && b.number > 1
    && var own := LastAttempt(frames, |frames|, b.logicalId, b.number);
       var parent := LastAttempt(frames, |frames|, b.logicalId, b.number - 1);
       && own.Some?
       && if parent.None? then b.PredecessorMissing?
          else
            && b.PredecessorMismatch?
            && var decision := LastDecision(frames, |frames|, frames[own.value].Occurrence());
               frames[decision.value].body.attempt.retryOf != Some(frames[parent.value].Occurrence())
  }

  predicate Blocks(h: Hash, m: Manifest, frames: seq<Frame>, b: Blocker) {
    || (b.ManifestBlocker? && (ManifestRaises(b.manifestIssue, m) || TailRaises(b.manifestIssue, m, frames)))
    || FramesBlock(h, m, frames, |frames|, b)
    || PairBlocks(frames, b)
    || LineageBlocks(frames, b)
  }

  // ----- the verifier -----

  ghost predicate PairsDescribe(frames: seq<Frame>, k: nat, pairs: map<Digest, Pair>)
    requires k <= |frames|
  {
    && (forall o :: o in pairs <==> Mentioned(frames, k, o))
    && (forall o :: o in pairs ==> pairs[o] == PairOf(frames, k, o))
  }

  ghost predicate LogicalDescribes(frames: seq<Frame>, k: nat, logical: map<string, map<int, Digest>>)
    requires k <= |frames|
  {
    forall id, n {:trigger LastAttempt(frames, k, id, n)} {:trigger n in logical[id]} ::
      && (id in logical && n in logical[id] <==> LastAttempt(frames, k, id, n).Some?)
      && (id in logical && n in logical[id] ==>
            logical[id][n] == frames[LastAttempt(frames, k, id, n).value].Occurrence())
  }

  method ScanChain(h: Hash, m: Manifest, frames: seq<Frame>, index: nat, head: Digest, previousAt: Option<Time>)
    returns (found: set<Blocker>)
    requires index < |frames|
    requires head == HeadOf(frames[..index])
    requires previousAt == if index == 0 then None else Some(frames[index - 1].body.observedAt)
    ensures forall b :: b in found <==> ChainBlocks(h, m, frames, index, b)
  {
    hide Raises;
    var f := frames[index];
    found := set issue: FrameIssue | Raises(h, issue, f) :: FrameBlocker(issue, index);
    if f.body.session != m.session { found := found + {SessionMismatch(index)}; }
    if f.body.sequence != index { found := found + {SequenceGap(index)}; }
    if f.body.previous != head { found := found + {PreviousMismatch(index)}; }
    if previousAt.Some? && f.body.observedAt < previousAt.value { found := found + {TimestampRegressed(index)}; }
  }

  method ScanRepeats(frames: seq<Frame>, index: nat, pair: Pair, attempts: map<int, Digest>)
    returns (found: set<Blocker>)
    requires index < |frames|
    requires pair == PairOf(frames, index, frames[index].Occurrence())
    requires forall n :: n in attempts <==> LastAttempt(frames, index, frames[index].body.attempt.logicalId, n).Some?
    ensures forall b :: b in found <==> RepeatBlocks(frames, index, b)
  {
    found := {};
    var f := frames[index];
    if f.IsDecision() {
      if pair.decision.Some? { found := found + {DecisionDuplicate(f.Occurrence())}; }
      if f.body.attempt.number in attempts {
        found := found + {LogicalAttemptDuplicate(f.body.attempt.logicalId, f.body.attempt.number)};
      }
    } else {
      if pair.action.Some? { found := found + {ActionDuplicate(f.Occurrence())}; }
      if f.IsMismatch() { found := found + {MismatchRecorded(f.Occurrence())}; }
    }
  }

  lemma PairsStep(frames: seq<Frame>, k: nat, pairs: map<Digest, Pair>, pair: Pair)
    requires k < |frames| && PairsDescribe(frames, k, pairs)
    requires var before := PairOf(frames, k, frames[k].Occurrence());
             pair == if frames[k].IsDecision() then before.(decision := Some(k)) else before.(action := Some(k))
    ensures PairsDescribe(frames, k + 1, pairs[frames[k].Occurrence() := pair])
  {
  }

  lemma LogicalStep(frames: seq<Frame>, k: nat, logical: map<string, map<int, Digest>>, attempts: map<int, Digest>)
    requires k < |frames| && frames[k].IsDecision() && LogicalDescribes(frames, k, logical)
    requires attempts == if frames[k].body.attempt.logicalId in logical
                         then logical[frames[k].body.attempt.logicalId] else map[]
    ensures LogicalDescribes(frames, k + 1,
                             logical[frames[k].body.attempt.logicalId :=
                               attempts[frames[k].body.attempt.number := frames[k].Occurrence()]])
  {
    forall id, n
      ensures DecidesAttempt(frames[k], id, n) ==> LastAttempt(frames, k + 1, id, n) == Some(k)
      ensures !DecidesAttempt(frames[k], id, n) ==> LastAttempt(frames, k + 1, id, n) == LastAttempt(frames, k, id, n)
    {
    }
  }

  lemma LogicalIdle(frames: seq<Frame>, k: nat, logical: map<string, map<int, Digest>>)
    requires k < |frames| && !frames[k].IsDecision() && LogicalDescribes(frames, k, logical)
    ensures LogicalDescribes(frames, k + 1, logical)
  {
    assert forall id, n {:trigger LastAttempt(frames, k + 1, id, n)} ::
      LastAttempt(frames, k + 1, id, n) == LastAttempt(frames, k, id, n);
    assert forall id, n {:trigger n in logical[id]} :: id in logical && n in logical[id] ==>
      LastAttempt(frames, k + 1, id, n).Some?;
    assert forall id, n {:trigger LastAttempt(frames, k + 1, id, n)} :: LastAttempt(frames, k + 1, id, n).Some? ==> id in logical && n in logical[id];
    assert forall id, n {:trigger n in logical[id]} :: id in logical && n in logical[id] ==>
      logical[id][n] == frames[LastAttempt(frames, k + 1, id, n).value].Occurrence();
  }

  lemma FramesBlockStep(h: Hash, m: Manifest, frames: seq<Frame>, k: nat, b: Blocker)
    requires k < |frames|
    ensures FramesBlock(h, m, frames, k + 1, b)
            <==> FramesBlock(h, m, frames, k, b) || ChainBlocks(h, m, frames, k, b) || RepeatBlocks(frames, k, b)
  {
    hide ChainBlocks, RepeatBlocks;
    if ChainBlocks(h, m, frames, k, b) || RepeatBlocks(frames, k, b) {
      assert NewlyBlocks(h, m, frames, k, b);
    }
    if FramesBlock(h, m, frames, k, b) {
      var i :| 0 <= i < k && NewlyBlocks(h, m, frames, i, b);
    }
  }

  lemma ScanStarts(h: Hash, m: Manifest, frames: seq<Frame>)
    ensures PairsDescribe(frames, 0, map[]) && LogicalDescribes(frames, 0, map[])
    ensures forall b :: !FramesBlock(h, m, frames, 0, b)
  {
  }

  lemma PairKnown(frames: seq<Frame>, k: nat, pairs: map<Digest, Pair>, o: Digest)
    requires k <= |frames| && PairsDescribe(frames, k, pairs)
    ensures (if o in pairs then pairs[o] else Pair(None, None)) == PairOf(frames, k, o)
  {
    hide LastDecision, LastAction;
  }

  lemma AttemptsKnown(frames: seq<Frame>, k: nat, logical: map<string, map<int, Digest>>, id: string)
    requires k <= |frames| && LogicalDescribes(frames, k, logical)
    ensures var attempts := if id in logical then logical[id] else map[];
            forall n :: n in attempts <==> LastAttempt(frames, k, id, n).Some?
  {
    hide LastAttempt;
  }

  method ScanFrames(h: Hash, m: Manifest, frames: seq<Frame>)
    returns (blockers: set<Blocker>, head: Digest, pairs: map<Digest, Pair>, logical: map<string, map<int, Digest>>)
    ensures head == HeadOf(frames)
    ensures PairsDescribe(frames, |frames|, pairs)
    ensures LogicalDescribes(frames, |frames|, logical)
    ensures forall b :: b in blockers <==> FramesBlock(h, m, frames, |frames|, b)
  {
    hide ChainBlocks, RepeatBlocks, FramesBlock, PairsDescribe, LogicalDescribes, PairOf;
    blockers, head, pairs, logical := {}, GENESIS, map[], map[];
    var previousAt: Option<Time> := None;
    ScanStarts(h, m, frames);
    assert frames[..|frames|] == frames;
    for index := 0 to |frames|
      invariant head == HeadOf(frames[..index])
      invariant previousAt == if index == 0 then None else Some(frames[index - 1].body.observedAt)
      invariant PairsDescribe(frames, index, pairs)
      invariant LogicalDescribes(frames, index, logical)
      invariant forall b :: b in blockers <==> FramesBlock(h, m, frames, index, b)
    {
      var f := frames[index];
      var o, id, n := f.Occurrence(), f.body.attempt.logicalId, f.body.attempt.number;
      var pair := if o in pairs then pairs[o] else Pair(None, None);
      var attempts := if id in logical then logical[id] else map[];
      PairKnown(frames, index, pairs, o);
      AttemptsKnown(frames, index, logical, id);
      var chained := ScanChain(h, m, frames, index, head, previousAt);
      var repeated := ScanRepeats(frames, index, pair, attempts);
      blockers := blockers + chained + repeated;
      forall b
        ensures FramesBlock(h, m, frames, index + 1, b) <==> b in blockers
      {
        FramesBlockStep(h, m, frames, index, b);
      }
      head := f.sha;
      previousAt := Some(f.body.observedAt);
      if f.IsDecision() {
        pair := pair.(decision := Some(index));
        LogicalStep(frames, index, logical, attempts);
        logical := logical[id := attempts[n := o]];
      } else {
        pair := pair.(action := Some(index));
        LogicalIdle(frames, index, logical);
      }
      PairsStep(frames, index, pairs, pair);
      pairs := pairs[o := pair];
    }
  }

  method CheckPairs(frames: seq<Frame>, pairs: map<Digest, Pair>) returns (blockers: set<Blocker>)
    requires PairsDescribe(frames, |frames|, pairs)
    ensures forall b :: b in blockers <==> PairBlocks(frames, b)
  {
    hide PairRaises;
    blockers := {};
    var todo := pairs.Keys;
    while todo != {}
      invariant todo <= pairs.Keys
      invariant forall b :: b in blockers <==> PairBlocks(frames, b) && b.occurrence !in todo
      decreases todo
    {
      var o :| o in todo;
      todo := todo - {o};
      blockers := blockers + set issue: PairIssue | PairRaises(issue, frames, pairs[o]) :: PairBlocker(issue, o);
    }
  }

  method CheckAttempts(frames: seq<Frame>, pairs: map<Digest, Pair>, id: string, attempts: map<int, Digest>)
    returns (blockers: set<Blocker>)
    requires PairsDescribe(frames, |frames|, pairs)
    requires forall n :: n in attempts <==> LastAttempt(frames, |frames|, id, n).Some?
    requires forall n :: n in attempts ==> attempts[n] == frames[LastAttempt(frames, |frames|, id, n).value].Occurrence()
    ensures forall b :: b in blockers <==> LineageBlocks(frames, b) && b.logicalId == id
  {
    blockers := {};
    var numbers := attempts.Keys;
    while numbers != {}
      invariant numbers <= attempts.Keys
      invariant forall b :: b in blockers <==> LineageBlocks(frames, b) && b.logicalId == id && b.number !in numbers
      decreases numbers
    {
      assert exists n :: n in numbers by { var some := SomeElement(numbers); }
      var n :| n in numbers;
      numbers := numbers - {n};
      var decision := pairs[attempts[n]].decision;
      if n > 1 {
        if n - 1 !in attempts {
          blockers := blockers + {PredecessorMissing(id, n)};
        } else if frames[decision.value].body.attempt.retryOf != Some(attempts[n - 1]) {
          blockers := blockers + {PredecessorMismatch(id, n)};
        }
      }
    }
  }

  method CheckLineage(frames: seq<Frame>, pairs: map<Digest, Pair>, logical: map<string, map<int, Digest>>)
    returns (blockers: set<Blocker>)
    requires PairsDescribe(frames, |frames|, pairs)
    requires LogicalDescribes(frames, |frames|, logical)
    ensures forall b :: b in blockers <==> LineageBlocks(frames, b)
  {
    forall b | LineageBlocks(frames, b)
      ensures b.logicalId in logical
    {
      assert LastAttempt(frames, |frames|, b.logicalId, b.number).Some?;
    }
    blockers := {};
    var ids := logical.Keys;
    while ids != {}
      invariant ids <= logical.Keys
      invariant forall b :: b in blockers <==> LineageBlocks(frames, b) && b.logicalId !in ids
      decreases ids
    {
      var id :| id in ids;
      var found := CheckAttempts(frames, pairs, id, logical[id]);
      hide LineageBlocks;
      blockers := blockers + found;
      ids := ids - {id};
    }
  }

  method CheckManifest(m: Manifest, frames: seq<Frame>, head: Digest, acted: nat) returns (blockers: set<Blocker>)
    requires head == HeadOf(frames) && acted == |ActionOccurrences(frames)|
    ensures forall b :: b in blockers <==>
      b.ManifestBlocker? && (ManifestRaises(b.manifestIssue, m) || TailRaises(b.manifestIssue, m, frames))
  {
    hide ManifestRaises, TailRaises, HeadOf, ActionOccurrences;
    var own := set issue: ManifestIssue | ManifestRaises(issue, m);
    var tail := CheckTail(m, frames, head, acted);
    blockers := set issue | issue in own + tail :: ManifestBlocker(issue);
  }

  method CheckTail(m: Manifest, frames: seq<Frame>, head: Digest, acted: nat) returns (found: set<ManifestIssue>)
    requires head == HeadOf(frames) && acted == |ActionOccurrences(frames)|
    ensures forall issue :: issue in found <==> TailRaises(issue, m, frames)
  {
    hide HeadOf, ActionOccurrences;
    found := {};
    if m.frameCount != |frames| { found := found + {FrameCountMismatch}; }
    if m.attemptCount != acted { found := found + {AttemptCountMismatch}; }
    if m.chainHead != head { found := found + {ChainHeadMismatch}; }
    if m.status != Finalized { found := found + {NotFinalized}; }
    if frames == [] { found := found + {LogEmpty}; }
    if m.finalizedAt.Some? && frames != [] && m.finalizedAt.value < frames[|frames| - 1].body.observedAt {
      found := found + {FinalizedBeforeLastFrame};
    }
    if frames != [] && m.createdAt > frames[0].body.observedAt { found := found + {CreatedAfterFirstFrame}; }
  }

  /** verifyGatewayBundle: exactly the deserved blockers, for every manifest and every frame log. */
  method VerifyGatewayBundle(h: Hash, m: Manifest, frames: seq<Frame>) returns (blockers: set<Blocker>)
    ensures forall b :: b in blockers <==> Blocks(h, m, frames, b)
  {
    hide FramesBlock, PairBlocks, LineageBlocks, ManifestRaises, TailRaises;
    var scanned, head, pairs, logical := ScanFrames(h, m, frames);
    var paired := CheckPairs(frames, pairs);
    var lineage := CheckLineage(frames, pairs, logical);
    var acted := set o | o in pairs && pairs[o].action.Some?;
    assert acted == ActionOccurrences(frames);
    hide PairsDescribe, LogicalDescribes;
    var ended := CheckManifest(m, frames, head, |acted|);
    blockers := scanned + paired + lineage + ended;
  }
}
