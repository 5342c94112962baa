/** What holds of the gateway recorder after every call, in every interleaving. */
module GatewayInvariant {
  import opened Common
  import opened GatewayFrames
  import opened GatewayRecording

  ghost predicate Chained(h: Hash, session: string, log: seq<Frame>) {
    forall i :: 0 <= i < |log| ==>
      && log[i].body.session == session
      && log[i].body.sequence == i
      && log[i].body.previous == HeadOf(log[..i])
      && Clean(h, log[i])
  }

  predicate SameAttempt(a: Frame, b: Frame) {
    a.body.attempt.logicalId == b.body.attempt.logicalId && a.body.attempt.number == b.body.attempt.number
  }

  /** The action answers the decision: same attempt, same policy receipt, and an outcome
      that is a censorship exactly when the policy blocked the attempt. */
  predicate Answers(action: Frame, decision: Frame)
    requires action.IsAction() && decision.IsDecision()
  {
    var p := decision.body.detail.policy;
    var t := action.body.detail.terminal;
    && action.Occurrence() == decision.Occurrence()
    && action.body.attempt == decision.body.attempt
    && action.body.detail.policyReceiptSha == p.receiptSha
    && (if p.body.verdict == Blocked
        then t.outcome == CensorOutcome(p.body) && t.failureCode.Some? && t.failureCode.value in p.body.reasonCodes
        else !Censored(t.outcome))
  }

  ghost predicate HasAnswered(log: seq<Frame>, j: nat)
    requires j < |log|
  {
    log[j].IsAction() ==> exists i :: 0 <= i < j && log[i].IsDecision() && Answers(log[j], log[i])
  }

  ghost predicate Answered(log: seq<Frame>) {
    forall j {:trigger HasAnswered(log, j)} :: 0 <= j < |log| ==> HasAnswered(log, j)
  }

  ghost predicate Distinct(log: seq<Frame>) {
    && (forall i, j :: 0 <= i < j < |log| && log[i].IsDecision() && log[j].IsDecision() ==>
          !SameAttempt(log[i], log[j]) && log[i].Occurrence() != log[j].Occurrence())
    && (forall i, j :: 0 <= i < j < |log| && log[i].IsAction() && log[j].IsAction() ==>
          log[i].Occurrence() != log[j].Occurrence())
  }

  predicate IsParent(parent: Frame, child: Frame) {
    && parent.IsDecision()
    && parent.body.attempt.logicalId == child.body.attempt.logicalId
    && parent.body.attempt.number == child.body.attempt.number - 1
    && child.body.attempt.retryOf == Some(parent.Occurrence())
  }

  ghost predicate HasParent(log: seq<Frame>, i: nat)
    requires i < |log|
  {
    log[i].IsDecision() && log[i].body.attempt.number > 1 ==> exists p :: 0 <= p < i && IsParent(log[p], log[i])
  }

  ghost predicate Lineage(log: seq<Frame>) {
    forall i {:trigger HasParent(log, i)} :: 0 <= i < |log| ==> HasParent(log, i)
  }

  predicate Recalls(logical: map<string, map<int, Digest>>, f: Frame) {
    var a := f.body.attempt;
    a.logicalId in logical && a.number in logical[a.logicalId] && logical[a.logicalId][a.number] == f.Occurrence()
  }

  ghost predicate Records(log: seq<Frame>, id: string, n: int) {
    exists i :: 0 <= i < |log| && log[i].IsDecision()
                && log[i].body.attempt.logicalId == id && log[i].body.attempt.number == n
  }

  ghost predicate LogicalMatches(log: seq<Frame>, logical: map<string, map<int, Digest>>) {
    && (forall i :: 0 <= i < |log| && log[i].IsDecision() ==> Recalls(logical, log[i]))
    && (forall id, n {:trigger Records(log, id, n)} {:trigger n in logical[id]} ::
          id in logical && n in logical[id] ==> Records(log, id, n))
  }

  /** The chain's and the manifest's copies of sequence and head both describe the log. */
  ghost predicate CountersAgree(h: Hash, r: Recorder) {
    && r.chain == Chain(|r.log|, HeadOf(r.log))
    && r.manifest.frameCount == |r.log|
    && r.manifest.chainHead == HeadOf(r.log)
    && StableId(r.manifest.session)
    && Chained(h, r.manifest.session, r.log)
  }

  ghost predicate LogSound(r: Recorder) {
    && Distinct(r.log)
    && Answered(r.log)
    && Lineage(r.log)
    && LogicalMatches(r.log, r.logical)
  }

  ghost predicate AccountsAgree(r: Recorder) {
    && ActionOccurrences(r.log) <= DecisionOccurrences(r.log)
    && r.manifest.attemptCount == |ActionOccurrences(r.log)|
    && r.openAttempts == |DecisionOccurrences(r.log)| - |ActionOccurrences(r.log)|
    && (r.manifest.status == Finalized ==>
          r.openAttempts == 0 && r.log != [] && r.manifest.finalizedAt.Some?)
    && (r.manifest.status == Recording ==> r.manifest.finalizedAt.None?)
  }

  ghost predicate RecorderInv(h: Hash, r: Recorder) {
    CountersAgree(h, r) && LogSound(r) && AccountsAgree(r)
  }

  predicate OpenHandle(r: Recorder, a: Handle)
    requires a.decision.IsDecision()
  {
    && !a.censored
    && a.decision.body.detail.policy.body.verdict == Allowed
    && a.decision.Occurrence() !in ActionOccurrences(r.log)
  }

  ghost predicate SessionInv(h: Hash, s: Session) {
    && HandlesDecide(s)
    && RecorderInv(h, s.recorder)
    && (forall k :: 0 <= k < |s.handles| ==>
          s.handles[k].decision in s.recorder.log && (!s.handles[k].closed ==> OpenHandle(s.recorder, s.handles[k])))
    && (forall j, k :: 0 <= j < k < |s.handles| ==>
          s.handles[j].decision.Occurrence() != s.handles[k].decision.Occurrence())
  }

  // ----- one frame -----

  lemma OccurrencesGrow(log: seq<Frame>, f: Frame)
    ensures DecisionOccurrences(log + [f]) == DecisionOccurrences(log) + if f.IsDecision() then {f.Occurrence()} else {}
    ensures ActionOccurrences(log + [f]) == ActionOccurrences(log) + if f.IsAction() then {f.Occurrence()} else {}
  {
    var grown := log + [f];
    assert grown[|log|] == f;
    assert forall i :: 0 <= i < |log| ==> grown[i] == log[i];
  }

  /** Emitting either changes nothing or appends exactly the next frame to log, chain and manifest. */
  lemma EmitAppends(h: Hash, r: Recorder, at: Time, a: Attempt, detail: Detail)
    requires CountersAgree(h, r)
    ensures var f := NextFrame(h, r, at, a, detail);
            var (r', out) := Emit(h, r, at, a, detail);
            if Clean(h, f)
            then out == Ok(f) && CountersAgree(h, r') && r'.log == r.log + [f]
                 && r' == r.(chain := r'.chain, log := r'.log,
                             manifest := r.manifest.(frameCount := |r'.log|, chainHead := f.sha))
            else out == Err(FrameRefused(FrameIssues(h, f))) && r' == r
  {
    hide Clean, Chained, FrameIssues, StableId;
    var f := NextFrame(h, r, at, a, detail);
    CleanMeansNoIssues(h, f);
    if Clean(h, f) {
      ChainedGrows(h, r.manifest.session, r.log, f);
    }
  }

  lemma ChainedGrows(h: Hash, session: string, log: seq<Frame>, f: Frame)
    requires Chained(h, session, log) && Clean(h, f)
    requires f.body.session == session && f.body.sequence == |log| && f.body.previous == HeadOf(log)
    ensures Chained(h, session, log + [f])
  {
    hide Clean;
    var grown := log + [f];
    assert grown[..|log|] == log;
    forall i | 0 <= i < |log|
      ensures grown[i] == log[i] && grown[..i] == log[..i]
    {
    }
  }

  lemma ChainedOccurrence(h: Hash, session: string, log: seq<Frame>, i: nat)
    requires Chained(h, session, log) && i < |log|
    ensures log[i].Occurrence() == OccurrenceSha(h, log[i].body.attempt)
    ensures Clean(h, log[i]) && log[i].body.session == session
  {
    assert !Raises(h, OccurrenceMismatch, log[i]);
  }

  // ----- growing a sound log -----

  lemma DecisionKeepsDistinct(h: Hash, session: string, log: seq<Frame>, f: Frame)
    requires OccurrenceCollisionFree(h) && Chained(h, session, log) && Distinct(log)
    requires f.IsDecision() && f.Occurrence() == OccurrenceSha(h, f.body.attempt)
    requires forall i :: 0 <= i < |log| && log[i].IsDecision() ==> !SameAttempt(log[i], f)
    ensures Distinct(log + [f])
    ensures f.Occurrence() !in DecisionOccurrences(log)
  {
    forall i | 0 <= i < |log| && log[i].IsDecision()
      ensures log[i].Occurrence() != f.Occurrence()
    {
      ChainedOccurrence(h, session, log, i);
      assert OccurrenceOf(log[i].body.attempt) != OccurrenceOf(f.body.attempt);
    }
  }

  lemma ActionKeepsDistinct(log: seq<Frame>, f: Frame)
    requires Distinct(log) && f.IsAction() && f.Occurrence() !in ActionOccurrences(log)
    ensures Distinct(log + [f])
  {
  }

  lemma AnsweredGrows(log: seq<Frame>, f: Frame)
    requires Answered(log)
    requires HasAnswered(log + [f], |log|)
    ensures Answered(log + [f])
  {
    hide Answers;
    var grown := log + [f];
    forall j | 0 <= j < |grown|
      ensures HasAnswered(grown, j)
    {
      if j < |log| && grown[j].IsAction() {
        assert HasAnswered(log, j);
        var i :| 0 <= i < j && log[i].IsDecision() && Answers(log[j], log[i]);
        assert grown[i] == log[i];
      }
    }
  }

  lemma LineageGrows(log: seq<Frame>, f: Frame)
    requires Lineage(log)
    requires HasParent(log + [f], |log|)
    ensures Lineage(log + [f])
  {
    hide IsParent;
    var grown := log + [f];
    forall i | 0 <= i < |grown|
      ensures HasParent(grown, i)
    {
      if i < |log| && grown[i].IsDecision() && grown[i].body.attempt.number > 1 {
        assert HasParent(log, i);
        var p :| 0 <= p < i && IsParent(log[p], log[i]);
        assert grown[p] == log[p];
      }
    }
  }

  lemma RecordsGrows(log: seq<Frame>, f: Frame, id: string, n: int)
    ensures Records(log + [f], id, n) <==>
            Records(log, id, n)
            || (f.IsDecision() && f.body.attempt.logicalId == id && f.body.attempt.number == n)
  {
    var grown := log + [f];
    assert grown[|log|] == f;
    if Records(log, id, n) {
      var i :| 0 <= i < |log| && log[i].IsDecision()
               && log[i].body.attempt.logicalId == id && log[i].body.attempt.number == n;
      assert grown[i] == log[i];
    }
  }

  lemma ActionKeepsLogical(log: seq<Frame>, logical: map<string, map<int, Digest>>, f: Frame)
    requires LogicalMatches(log, logical) && f.IsAction()
    ensures LogicalMatches(log + [f], logical)
  {
    forall id, n | id in logical && n in logical[id]
      ensures Records(log + [f], id, n)
    {
      RecordsGrows(log, f, id, n);
    }
  }

  lemma DecisionKeepsLogical(r: Recorder, f: Frame)
    requires LogicalMatches(r.log, r.logical) && f.IsDecision()
    requires forall i :: 0 <= i < |r.log| && r.log[i].IsDecision() ==> !SameAttempt(r.log[i], f)
    ensures LogicalMatches(r.log + [f], Remember(r, f.body.attempt, f.Occurrence()).logical)
  {
    var logical := Remember(r, f.body.attempt, f.Occurrence()).logical;
    var grown := r.log + [f];
    forall i | 0 <= i < |grown| && grown[i].IsDecision()
      ensures Recalls(logical, grown[i])
    {
      if i < |r.log| {
        assert Recalls(r.logical, r.log[i]);
      }
    }
    forall id, n | id in logical && n in logical[id]
      ensures Records(grown, id, n)
    {
      RecordsGrows(r.log, f, id, n);
      if !(id == f.body.attempt.logicalId && n == f.body.attempt.number) {
        assert id in r.logical && n in r.logical[id];
        assert Records(r.log, id, n);
      }
    }
  }

  // ----- prepare -----

  ghost predicate Unrecorded(log: seq<Frame>, a: Attempt) {
    && (forall i :: 0 <= i < |log| && log[i].IsDecision() ==>
          !(log[i].body.attempt.logicalId == a.logicalId && log[i].body.attempt.number == a.number))
    && (a.number > 1 ==>
          exists p :: 0 <= p < |log| && log[p].IsDecision() && log[p].body.attempt.logicalId == a.logicalId
                      && log[p].body.attempt.number == a.number - 1 && a.retryOf == Some(log[p].Occurrence()))
  }

  lemma AcceptedLineage(r: Recorder, input: PrepareInput, request: ContentRef)
    requires LogSound(r)
    requires LineageRefusal(r, input).None?
    ensures Unrecorded(r.log, AttemptFor(input, request))
  {
    forall i | 0 <= i < |r.log| && r.log[i].IsDecision()
      ensures !(r.log[i].body.attempt.logicalId == input.logicalId && r.log[i].body.attempt.number == input.number)
    {
      assert Recalls(r.logical, r.log[i]);
    }
    if input.number > 1 {
      assert input.number - 1 in PriorAttempts(r, input.logicalId);
      assert Records(r.log, input.logicalId, input.number - 1);
      var p :| 0 <= p < |r.log| && r.log[p].IsDecision()
               && r.log[p].body.attempt.logicalId == input.logicalId
               && r.log[p].body.attempt.number == input.number - 1;
      assert Recalls(r.logical, r.log[p]);
    }
  }

  lemma DecisionKeepsLog(h: Hash, r: Recorder, f: Frame)
    requires OccurrenceCollisionFree(h) && LogSound(r)
    requires Chained(h, r.manifest.session, r.log)
    requires f.IsDecision() && f.Occurrence() == OccurrenceSha(h, f.body.attempt)
    requires Unrecorded(r.log, f.body.attempt)
    ensures LogSound(Remember(r.(log := r.log + [f]), f.body.attempt, f.Occurrence()))
    ensures f.Occurrence() !in DecisionOccurrences(r.log)
  {
    hide Answers, Recalls, Records;
    var grown := r.log + [f];
    assert grown[|r.log|] == f;
    DecisionKeepsDistinct(h, r.manifest.session, r.log, f);
    AnsweredGrows(r.log, f);
    if f.body.attempt.number > 1 {
      var p :| 0 <= p < |r.log| && r.log[p].IsDecision() && r.log[p].body.attempt.logicalId == f.body.attempt.logicalId
               && r.log[p].body.attempt.number == f.body.attempt.number - 1
               && f.body.attempt.retryOf == Some(r.log[p].Occurrence());
      assert IsParent(grown[p], f);
    }
    LineageGrows(r.log, f);
    DecisionKeepsLogical(r, f);
  }

  lemma ActionKeepsLog(r: Recorder, f: Frame, d: nat)
    requires LogSound(r)
    requires d < |r.log| && r.log[d].IsDecision() && f.IsAction() && Answers(f, r.log[d])
    requires f.Occurrence() !in ActionOccurrences(r.log)
    ensures LogSound(r.(log := r.log + [f]))
  {
    hide Answers, Recalls, Records, IsParent;
    var grown := r.log + [f];
    assert grown[|r.log|] == f && grown[d] == r.log[d];
    ActionKeepsDistinct(r.log, f);
    AnsweredGrows(r.log, f);
    LineageGrows(r.log, f);
    ActionKeepsLogical(r.log, r.logical, f);
  }

  /** A censored action is never refused once its decision was accepted. */
  lemma CensoredActionAccepted(h: Hash, decision: Frame, action: Frame)
    requires decision.IsDecision() && Clean(h, decision)
    requires action.body.detail == Action(decision.body.detail.policy.receiptSha,
                                          CensoredTerminal(decision.body.detail.policy.body))
    requires action.body.session == decision.body.session && action.body.attempt == decision.body.attempt
    requires action.Occurrence() == OccurrenceSha(h, action.body.attempt)
    requires action.sha == h(FrameContent(action.body))
    requires 0 <= action.body.sequence <= MAX_SAFE_INTEGER
    ensures Clean(h, action)
  {
    assert !Raises(h, ReasonCodesInvalid, decision);
    assert StableId(decision.body.detail.policy.body.reasonCodes[0]);
    forall issue
      ensures !Raises(h, issue, action)
    {
      assert !Raises(h, issue, decision);
      hide StableId, KnownProvider, ModelPin, ContentOk, ReasonCodesOk;
    }
  }

  function CensorDetail(p: Policy): Detail {
    Action(p.receiptSha, CensoredTerminal(p.body))
  }

  /** One emitted frame leaves the rest of the recorder alone. */
  ghost predicate Appended(r: Recorder, f: Frame, r': Recorder) {
    && r'.log == r.log + [f]
    && r'.openAttempts == r.openAttempts
    && r'.manifest == r.manifest.(frameCount := |r'.log|, chainHead := f.sha)
  }

  /** The first half of prepare: the decision is logged and remembered. */
  lemma DecisionAdmission(h: Hash, r: Recorder, a: Attempt, policy: Policy, at: Time)
    requires OccurrenceCollisionFree(h) && CountersAgree(h, r) && LogSound(r)
    requires Unrecorded(r.log, a)
    requires Clean(h, NextFrame(h, r, at, a, Decision(policy)))
    ensures var f := NextFrame(h, r, at, a, Decision(policy));
            var (r1, out) := Emit(h, r, at, a, Decision(policy));
            var r2 := Remember(r1, a, f.Occurrence());
            && out == Ok(f)
            && CountersAgree(h, r2) && LogSound(r2) && Appended(r, f, r2)
            && f.Occurrence() !in DecisionOccurrences(r.log)
            && DecisionOccurrences(r2.log) == DecisionOccurrences(r.log) + {f.Occurrence()}
            && ActionOccurrences(r2.log) == ActionOccurrences(r.log)
  {
    hide Raises, FrameIssues, LogSound, Unrecorded;
    var f := NextFrame(h, r, at, a, Decision(policy));
    EmitAppends(h, r, at, a, Decision(policy));
    hide Emit, Clean;
    DecisionKeepsLog(h, r, f);
    OccurrencesGrow(r.log, f);
    var r1 := Emit(h, r, at, a, Decision(policy)).0;
    assert Remember(r1, a, f.Occurrence()).logical == Remember(r.(log := r.log + [f]), a, f.Occurrence()).logical;
    LogSoundDependsOnLog(Remember(r.(log := r.log + [f]), a, f.Occurrence()), Remember(r1, a, f.Occurrence()));
  }

  lemma LogSoundDependsOnLog(r: Recorder, r': Recorder)
    requires LogSound(r) && r'.log == r.log && r'.logical == r.logical
    ensures LogSound(r')
  {
    hide Distinct, Answered, Lineage, LogicalMatches;
  }

  /** The second half of a blocked prepare: the censored action closes the pair at once. */
  lemma CensoredAnswers(h: Hash, r: Recorder, decision: Frame, at: Time)
    requires decision.IsDecision() && Clean(h, decision) && decision.body.detail.policy.body.verdict == Blocked
    requires decision.Occurrence() == OccurrenceSha(h, decision.body.attempt)
    ensures var p := decision.body.detail.policy;
            var f := NextFrame(h, r, at, decision.body.attempt, CensorDetail(p));
            && Answers(f, decision)
            && CensorDetail(p) == Action(p.receiptSha, CensoredTerminal(p.body))
  {
    assert !Raises(h, ReasonCodesInvalid, decision);
    hide Raises, Clean;
  }

  lemma BlockedAdmission(h: Hash, r: Recorder, decision: Frame, at: Time)
    requires CountersAgree(h, r) && LogSound(r) && |r.log| <= MAX_SAFE_INTEGER
    requires r.log != [] && r.log[|r.log| - 1] == decision && decision.IsDecision()
    requires decision.body.detail.policy.body.verdict == Blocked
    requires decision.Occurrence() !in ActionOccurrences(r.log)
    ensures var detail := CensorDetail(decision.body.detail.policy);
            var f := NextFrame(h, r, at, decision.body.attempt, detail);
            var (r', out) := Emit(h, r, at, decision.body.attempt, detail);
            && out == Ok(f) && CountersAgree(h, r') && LogSound(r') && Appended(r, f, r')
            && DecisionOccurrences(r'.log) == DecisionOccurrences(r.log)
            && ActionOccurrences(r'.log) == ActionOccurrences(r.log) + {decision.Occurrence()}
  {
    hide FrameIssues, LogSound, Emit, Clean, Chained, Answers, CensorDetail;
    var p := decision.body.detail.policy;
    var detail := CensorDetail(p);
    var f := NextFrame(h, r, at, decision.body.attempt, detail);
    EmitAppends(h, r, at, decision.body.attempt, detail);
    ChainedOccurrence(h, r.manifest.session, r.log, |r.log| - 1);
    CensoredAnswers(h, r, decision, at);
    CensoredActionAccepted(h, decision, f);
    ActionKeepsLog(r, f, |r.log| - 1);
    LogSoundDependsOnLog(r.(log := r.log + [f]), Emit(h, r, at, decision.body.attempt, detail).0);
    OccurrencesGrow(r.log, f);
  }

  lemma AdmitKeeps(h: Hash, r: Recorder, a: Attempt, policy: Policy, clock: PrepareClock)
    requires OccurrenceCollisionFree(h) && RecorderInv(h, r) && r.manifest.status == Recording
    requires Unrecorded(r.log, a)
    requires |Admit(h, r, a, policy, clock).0.log| <= MAX_SAFE_INTEGER
    ensures var (r', out) := Admit(h, r, a, policy, clock);
            && RecorderInv(h, r')
            && r.log <= r'.log
            && match out
               case Err(_) => r' == r
               case Ok(handle) =>
                 && handle.decision.IsDecision() && handle.decision in r'.log
                 && handle.decision.body.detail.policy == policy
                 && handle.decision.Occurrence() !in DecisionOccurrences(r.log)
                 && (handle.closed <==> policy.body.verdict == Blocked) && (handle.censored ==> handle.closed)
                 && ActionOccurrences(r'.log)
                    == ActionOccurrences(r.log) + if handle.closed then {handle.decision.Occurrence()} else {}
  {
    hide Clean, FrameIssues, LogSound, Unrecorded, DecisionOccurrences, ActionOccurrences, Chained;
    var f := NextFrame(h, r, clock.decisionAt, a, Decision(policy));
    EmitAppends(h, r, clock.decisionAt, a, Decision(policy));
    CleanMeansNoIssues(h, f);
    hide Emit;
    if Clean(h, f) {
      DecisionAdmission(h, r, a, policy, clock.decisionAt);
      var r2 := Remember(Emit(h, r, clock.decisionAt, a, Decision(policy)).0, a, f.Occurrence());
      assert r2.log[|r.log|] == f;
      if policy.body.verdict == Blocked {
        BlockedAdmission(h, r2, f, clock.actionAt);
        hide CountersAgree;
        var r3 := Emit(h, r2, clock.actionAt, a, CensorDetail(policy)).0;
        assert r3.log[|r.log|] == f;
        CountersIgnoreAttempts(h, r3, CountAttempt(r3));
        LogSoundDependsOnLog(r3, CountAttempt(r3));
      } else {
        hide CountersAgree;
        CountersIgnoreAttempts(h, r2, r2.(openAttempts := r2.openAttempts + 1));
        LogSoundDependsOnLog(r2, r2.(openAttempts := r2.openAttempts + 1));
      }
    }
  }

  lemma CountersIgnoreAttempts(h: Hash, r: Recorder, r': Recorder)
    requires CountersAgree(h, r) && r'.log == r.log && r'.chain == r.chain
    requires r'.manifest == r.manifest.(attemptCount := r'.manifest.attemptCount)
    ensures CountersAgree(h, r')
  {
    hide Chained;
  }

  // ----- closing an attempt -----

  lemma ProperSubsetIsSmaller<T>(a: set<T>, b: set<T>)
    requires a < b
    ensures |a| < |b|
  {
    assert b == a + (b - a);
    assert b - a != {};
  }

  lemma NextAnswers(h: Hash, r: Recorder, decision: Frame, t: Terminal, at: Time)
    requires decision.IsDecision() && decision.body.detail.policy.body.verdict == Allowed && !Censored(t.outcome)
    requires decision.Occurrence() == OccurrenceSha(h, decision.body.attempt)
    ensures Answers(NextFrame(h, r, at, decision.body.attempt, Action(decision.body.detail.policy.receiptSha, t)), decision)
  {
  }

  /** An accepted terminal frame answers its decision. */
  lemma ActionAdmission(h: Hash, r: Recorder, decision: Frame, t: Terminal, at: Time)
    requires CountersAgree(h, r) && LogSound(r)
    requires decision.IsDecision() && decision in r.log
    requires decision.body.detail.policy.body.verdict == Allowed && !Censored(t.outcome)
    requires decision.Occurrence() !in ActionOccurrences(r.log)
    requires Clean(h, NextFrame(h, r, at, decision.body.attempt, Action(decision.body.detail.policy.receiptSha, t)))
    ensures var detail := Action(decision.body.detail.policy.receiptSha, t);
            var f := NextFrame(h, r, at, decision.body.attempt, detail);
            var (r', out) := Emit(h, r, at, decision.body.attempt, detail);
            && out == Ok(f) && CountersAgree(h, r') && LogSound(r') && Appended(r, f, r')
            && DecisionOccurrences(r'.log) == DecisionOccurrences(r.log)
            && ActionOccurrences(r'.log) == ActionOccurrences(r.log) + {decision.Occurrence()}
  {
    hide Raises, FrameIssues, LogSound, Emit, Clean, Chained, Answers;
    var d :| 0 <= d < |r.log| && r.log[d] == decision;
    ChainedOccurrence(h, r.manifest.session, r.log, d);
    var detail := Action(decision.body.detail.policy.receiptSha, t);
    var f := NextFrame(h, r, at, decision.body.attempt, detail);
    EmitAppends(h, r, at, decision.body.attempt, detail);
    NextAnswers(h, r, decision, t, at);
    OccurrencesGrow(r.log, f);
    ActionKeepsLog(r, f, d);
    LogSoundDependsOnLog(r.(log := r.log + [f]), Emit(h, r, at, decision.body.attempt, detail).0);
  }

  lemma DecisionIsCounted(log: seq<Frame>, f: Frame)
    requires f in log && f.IsDecision()
    ensures f.Occurrence() in DecisionOccurrences(log)
  {
  }

  lemma FinishKeeps(h: Hash, r: Recorder, a: Handle, t: Terminal, clock: CloseClock)
    requires RecorderInv(h, r)
    requires a.decision.IsDecision() && a.decision in r.log && OpenHandle(r, a)
    requires !Censored(t.outcome)
    ensures var (r', a', out) := Finish(h, r, a, t, clock);
            && RecorderInv(h, r')
            && a' == a.(closed := true)
            && r.log <= r'.log
            && match out
               case Err(_) => r' == r
               case Ok(f) => ActionOccurrences(r'.log) == ActionOccurrences(r.log) + {a.decision.Occurrence()}
  {
    hide Raises, FrameIssues, LogSound, Clean, Chained, Emit, ActionOccurrences, DecisionOccurrences, NextFrame;
    var detail := Action(a.decision.body.detail.policy.receiptSha, t);
    var f := NextFrame(h, r, clock.observedAt, a.decision.body.attempt, detail);
    EmitAppends(h, r, clock.observedAt, a.decision.body.attempt, detail);
    CleanMeansNoIssues(h, f);
    DecisionIsCounted(r.log, a.decision);
    ProperSubsetIsSmaller(ActionOccurrences(r.log), DecisionOccurrences(r.log));
    if Clean(h, f) {
      ActionAdmission(h, r, a.decision, t, clock.observedAt);
      hide CountersAgree;
      var r1 := Emit(h, r, clock.observedAt, a.decision.body.attempt, detail).0;
      var r2 := CountAttempt(r1.(openAttempts := r1.openAttempts - 1));
      LogSoundDependsOnLog(r1, r2);
      CountersIgnoreAttempts(h, r1, r2);
    }
  }

  // ----- every call -----

  predicate PrepareAccepted(h: Hash, r: Recorder, input: PrepareInput) {
    && r.manifest.status == Recording
    && PrepareRefusal(input).None?
    && ContentReference(h, input.body, input.mediaType).Ok?
    && LineageRefusal(r, input).None?
  }

  function AdmittedAttempt(h: Hash, input: PrepareInput): Attempt
    requires ContentReference(h, input.body, input.mediaType).Ok?
  {
    AttemptFor(input, ContentReference(h, input.body, input.mediaType).value)
  }

  function AdmittedPolicy(h: Hash, input: PrepareInput, clock: PrepareClock): Policy
    requires ContentReference(h, input.body, input.mediaType).Ok?
  {
    PolicyFor(h, input, ContentReference(h, input.body, input.mediaType).value, clock.evaluatedAt)
  }

  /** A prepare that is not admitted leaves no trace. */
  lemma PrepareSplits(h: Hash, r: Recorder, input: PrepareInput, clock: PrepareClock)
    ensures if PrepareAccepted(h, r, input)
            then Prepare(h, r, input, clock) == Admit(h, r, AdmittedAttempt(h, input), AdmittedPolicy(h, input, clock), clock)
                 && AdmittedPolicy(h, input, clock).body.evaluatedAt == clock.evaluatedAt
            else Prepare(h, r, input, clock).0 == r && Prepare(h, r, input, clock).1.Err?
  {
    hide Admit, PrepareRefusal, ContentReference, LineageRefusal;
  }

  /** Succeeding or failing either closes the attempt with one terminal or leaves no trace. */
  lemma SucceedSplits(h: Hash, r: Recorder, a: Handle, input: SuccessInput, clock: CloseClock)
    requires a.decision.IsDecision()
    ensures var (r', a', _) := Succeed(h, r, a, input, clock);
            if SuccessRefusal(a, input).None? && ContentReference(h, input.body, input.mediaType).Ok?
            then var t := SuccessTerminal(a, input, ContentReference(h, input.body, input.mediaType).value, clock);
                 && !a.closed && !Censored(t.outcome) && t.dispatchStartedAt == a.dispatchedAt
                 && r' == Finish(h, r, a, t, clock).0 && a' == Finish(h, r, a, t, clock).1
            else r' == r && a' == a
  {
    hide Finish, ContentReference;
  }

  lemma FailSplits(h: Hash, r: Recorder, a: Handle, input: FailureInput, clock: CloseClock)
    requires a.decision.IsDecision()
    ensures var (r', a', _) := Fail(h, r, a, input, clock);
            if FailureRefusal(a, input).None? && FailureResponse(h, input).Ok?
            then var t := FailureTerminal(a, input, FailureResponse(h, input).value, clock);
                 && !a.closed && !Censored(t.outcome) && t.dispatchStartedAt == a.dispatchedAt
                 && r' == Finish(h, r, a, t, clock).0 && a' == Finish(h, r, a, t, clock).1
            else r' == r && a' == a
  {
    hide Finish, FailureResponse;
  }

  lemma StartInv(h: Hash, session: string, createdAt: Time)
    requires StableId(session)
    ensures SessionInv(h, Start(session, createdAt))
  {
  }

  lemma InGrownLog(log: seq<Frame>, grown: seq<Frame>, f: Frame)
    requires log <= grown && f in log
    ensures f in grown
  {
    var d :| 0 <= d < |log| && log[d] == f;
    assert grown[d] == f;
  }

  lemma HandleJoins(h: Hash, s: Session, r': Recorder, handle: Handle)
    requires SessionInv(h, s) && RecorderInv(h, r') && s.recorder.log <= r'.log
    requires handle.decision.IsDecision() && handle.decision in r'.log
    requires handle.decision.Occurrence() !in DecisionOccurrences(s.recorder.log)
    requires !handle.closed ==> !handle.censored && handle.decision.body.detail.policy.body.verdict == Allowed
    requires ActionOccurrences(r'.log)
             == ActionOccurrences(s.recorder.log) + if handle.closed then {handle.decision.Occurrence()} else {}
    ensures SessionInv(h, Session(r', s.handles + [handle]))
  {
    hide CountersAgree, LogSound, ActionOccurrences;
    forall k | 0 <= k < |s.handles|
      ensures s.handles[k].decision in r'.log
      ensures s.handles[k].decision.Occurrence() in DecisionOccurrences(s.recorder.log)
    {
      InGrownLog(s.recorder.log, r'.log, s.handles[k].decision);
    }
  }

  lemma PrepareKeeps(h: Hash, s: Session, input: PrepareInput, clock: PrepareClock)
    requires OccurrenceCollisionFree(h) && SessionInv(h, s)
    requires |Prepare(h, s.recorder, input, clock).0.log| <= MAX_SAFE_INTEGER
    ensures var (r', out) := Prepare(h, s.recorder, input, clock);
            if out.Ok? then SessionInv(h, Session(r', s.handles + [out.value])) else r' == s.recorder
  {
    hide Prepare, Admit, CountersAgree, LogSound, AccountsAgree, Unrecorded;
    var r := s.recorder;
    PrepareSplits(h, r, input, clock);
    if PrepareAccepted(h, r, input) {
      var a, policy := AdmittedAttempt(h, input), AdmittedPolicy(h, input, clock);
      AcceptedLineage(r, input, ContentReference(h, input.body, input.mediaType).value);
      hide PrepareAccepted, AdmittedAttempt, AdmittedPolicy;
      AdmitKeeps(h, r, a, policy, clock);
      var (r', out) := Admit(h, r, a, policy, clock);
      if out.Ok? {
        HandleJoins(h, s, r', out.value);
      }
    }
  }

  lemma CloseKeeps(h: Hash, s: Session, k: nat, t: Terminal, clock: CloseClock)
    requires SessionInv(h, s) && k < |s.handles| && !s.handles[k].closed && !Censored(t.outcome)
    ensures var (r', a', _) := Finish(h, s.recorder, s.handles[k], t, clock);
            SessionInv(h, Session(r', s.handles[k := a']))
  {
    hide RecorderInv, Finish, ActionOccurrences;
    FinishKeeps(h, s.recorder, s.handles[k], t, clock);
    var (r', a', _) := Finish(h, s.recorder, s.handles[k], t, clock);
    forall j | 0 <= j < |s.handles|
      ensures s.handles[j].decision in r'.log
    {
      InGrownLog(s.recorder.log, r'.log, s.handles[j].decision);
    }
  }

  lemma FinalizeKeeps(h: Hash, r: Recorder, at: Time)
    requires RecorderInv(h, r)
    ensures RecorderInv(h, Finalize(r, at).0)
  {
    hide Chained;
    LogSoundDependsOnLog(r, Finalize(r, at).0);
    hide LogSound;
  }

  lemma CallKeeps(h: Hash, s: Session, call: Call)
    requires OccurrenceCollisionFree(h) && SessionInv(h, s)
    requires |Do(h, s, call).recorder.log| <= MAX_SAFE_INTEGER
    ensures SessionInv(h, Do(h, s, call))
  {
    hide RecorderInv, Finish, Prepare, Succeed, Fail, ActionOccurrences, ContentReference, FailureResponse;
    match call
    case PrepareCall(input, clock) => PrepareKeeps(h, s, input, clock);
    case DispatchCall(k, at) =>
    case SucceedCall(k, input, clock) =>
      if k < |s.handles| {
        SucceedSplits(h, s.recorder, s.handles[k], input, clock);
        if SuccessRefusal(s.handles[k], input).None? && ContentReference(h, input.body, input.mediaType).Ok? {
          CloseKeeps(h, s, k, SuccessTerminal(s.handles[k], input, ContentReference(h, input.body, input.mediaType).value, clock), clock);
        }
      }
    case FailCall(k, input, clock) =>
      if k < |s.handles| {
        FailSplits(h, s.recorder, s.handles[k], input, clock);
        if FailureRefusal(s.handles[k], input).None? && FailureResponse(h, input).Ok? {
          CloseKeeps(h, s, k, FailureTerminal(s.handles[k], input, FailureResponse(h, input).value, clock), clock);
        }
      }
    case FinalizeCall(at) => FinalizeKeeps(h, s.recorder, at);
  }

  lemma EmitGrows(h: Hash, r: Recorder, at: Time, a: Attempt, detail: Detail)
    ensures r.log <= Emit(h, r, at, a, detail).0.log
  {
    hide FrameIssues;
  }

  lemma AdmitGrows(h: Hash, r: Recorder, a: Attempt, policy: Policy, clock: PrepareClock)
    ensures r.log <= Admit(h, r, a, policy, clock).0.log
  {
    EmitGrows(h, r, clock.decisionAt, a, Decision(policy));
    var (r1, decided) := Emit(h, r, clock.decisionAt, a, Decision(policy));
    if decided.Ok? {
      EmitGrows(h, Remember(r1, a, decided.value.body.occurrence), clock.actionAt, a,
                Action(policy.receiptSha, CensoredTerminal(policy.body)));
    }
    hide Emit;
  }

  lemma FinishGrows(h: Hash, r: Recorder, a: Handle, t: Terminal, clock: CloseClock)
    requires a.decision.IsDecision()
    ensures r.log <= Finish(h, r, a, t, clock).0.log
  {
    EmitGrows(h, r, clock.observedAt, a.decision.body.attempt, Action(a.decision.body.detail.policy.receiptSha, t));
    hide Emit;
  }

  lemma LogGrows(h: Hash, s: Session, call: Call)
    requires HandlesDecide(s)
    ensures s.recorder.log <= Do(h, s, call).recorder.log
  {
    hide Admit, Finish;
    match call
    case PrepareCall(input, clock) =>
      var ref := ContentReference(h, input.body, input.mediaType);
      if ref.Ok? {
        AdmitGrows(h, s.recorder, AttemptFor(input, ref.value), PolicyFor(h, input, ref.value, clock.evaluatedAt), clock);
      }
    case SucceedCall(k, input, clock) =>
      var ref := ContentReference(h, input.body, input.mediaType);
      if k < |s.handles| && ref.Ok? {
        FinishGrows(h, s.recorder, s.handles[k], SuccessTerminal(s.handles[k], input, ref.value, clock), clock);
      }
    case FailCall(k, input, clock) =>
      var ref := FailureResponse(h, input);
      if k < |s.handles| && ref.Ok? {
        FinishGrows(h, s.recorder, s.handles[k], FailureTerminal(s.handles[k], input, ref.value, clock), clock);
      }
    case _ =>
  }

  lemma {:induction false} LogGrowsOverRun(h: Hash, s: Session, calls: seq<Call>)
    requires HandlesDecide(s)
    ensures s.recorder.log <= Play(h, s, calls).recorder.log
    decreases |calls|
  {
    hide Do;
    if calls != [] {
      LogGrows(h, s, calls[0]);
      DoKeepsDecisions(h, s, calls[0]);
      LogGrowsOverRun(h, Do(h, s, calls[0]), calls[1..]);
    }
  }

  /** Every reachable session is sound, as long as its frame numbers are safe integers. */
  lemma {:induction false} RunKeeps(h: Hash, s: Session, calls: seq<Call>)
    requires OccurrenceCollisionFree(h) && SessionInv(h, s)
    requires |Play(h, s, calls).recorder.log| <= MAX_SAFE_INTEGER
    ensures SessionInv(h, Play(h, s, calls))
    decreases |calls|
  {
    hide RecorderInv, Do, OpenHandle;
    if calls != [] {
      DoKeepsDecisions(h, s, calls[0]);
      LogGrowsOverRun(h, Do(h, s, calls[0]), calls[1..]);
      CallKeeps(h, s, calls[0]);
      RunKeeps(h, Do(h, s, calls[0]), calls[1..]);
    }
  }
}
