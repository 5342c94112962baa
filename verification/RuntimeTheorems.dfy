/** What the runtime recorder and its verifier promise: crashes are invisible, accepted bundles are the
    recorder's own, side effects have a well-founded provenance, credentials stay least-privileged. */
module RuntimeTheorems {
  import opened Common
  import opened RuntimeJournal
  import opened RuntimeRecorder

  // ----- live runs and crashes -----

  lemma DoKeeps(h: Hash, r: Recorder, step: Step)
    requires RecorderInv(h, r) && Typed(step)
    ensures var next := Do(h, r, step).0;
            next.Some? ==> RecorderInv(h, next.value) && next.value.header == r.header && r.receipts <= next.value.receipts
  {
    hide Accepted, HasTerminal, Verified, StableId;
  }

  /** Rebuilding the recorder from header and journal gives back the recorder. */
  lemma RecoverIsLive(h: Hash, r: Recorder)
    requires RecorderInv(h, r) && !r.finalized
    ensures Recover(h, r.header, r.receipts, r.storeId, false, false) == Ok(r)
  {
  }

  function WithoutCrashes(steps: seq<Step>): seq<Step> {
    if steps == [] then []
    else (if steps[0] == Crash then [] else [steps[0]]) + WithoutCrashes(steps[1..])
  }

  lemma {:induction false} WithoutCrashesIsTyped(steps: seq<Step>)
    requires AllTyped(steps)
    ensures AllTyped(WithoutCrashes(steps))
  {
    if steps != [] {
      WithoutCrashesIsTyped(steps[1..]);
    }
  }

  /** The recorder after the steps that are not crashes. */
  ghost function Uninterrupted(h: Hash, r: Recorder, steps: seq<Step>): Recorder
    requires AllTyped(steps)
    decreases |steps|
  {
    if steps == [] then r
    else if steps[0] == Crash then Uninterrupted(h, r, steps[1..])
    else Uninterrupted(h, Do(h, r, steps[0]).0.value, steps[1..])
  }

  /** No crash comes after the bundle was written. */
  ghost predicate CrashesBeforeFinal(h: Hash, r: Recorder, steps: seq<Step>)
    requires AllTyped(steps)
  {
    forall i {:trigger steps[i]} :: 0 <= i < |steps| && steps[i] == Crash ==> !Uninterrupted(h, r, steps[..i]).finalized
  }

  lemma {:induction false} UninterruptedIsRun(h: Hash, r: Recorder, steps: seq<Step>)
    requires AllTyped(steps)
    ensures AllTyped(WithoutCrashes(steps)) && Play(h, r, WithoutCrashes(steps)).0 == Some(Uninterrupted(h, r, steps))
    decreases |steps|
  {
    WithoutCrashesIsTyped(steps);
    if steps != [] {
      var rest := WithoutCrashes(steps[1..]);
      if steps[0] == Crash {
        assert WithoutCrashes(steps) == rest;
        UninterruptedIsRun(h, r, steps[1..]);
      } else {
        var next := Do(h, r, steps[0]).0.value;
        UninterruptedIsRun(h, next, steps[1..]);
        assert WithoutCrashes(steps) == [steps[0]] + rest;
        hide WithoutCrashes, Do;
        PlayFirst(h, r, [steps[0]] + rest);
        assert ([steps[0]] + rest)[1..] == rest;
      }
    }
  }

  /** The condition, one step later. */
  lemma CrashesShift(h: Hash, r: Recorder, steps: seq<Step>)
    requires AllTyped(steps) && steps != []
    ensures var next := if steps[0] == Crash then r else Do(h, r, steps[0]).0.value;
            CrashesBeforeFinal(h, r, steps) <==>
              (steps[0] == Crash ==> !r.finalized) && CrashesBeforeFinal(h, next, steps[1..])
  {
    hide Do;
    var next := if steps[0] == Crash then r else Do(h, r, steps[0]).0.value;
    var rest := steps[1..];
    forall i | 0 <= i < |rest|
      ensures Uninterrupted(h, r, steps[..i + 1]) == Uninterrupted(h, next, rest[..i])
    {
      assert steps[..i + 1][1..] == rest[..i] && steps[..i + 1][0] == steps[0];
    }
    assert steps[..0] == [];
    if CrashesBeforeFinal(h, r, steps) {
      forall i | 0 <= i < |rest| && rest[i] == Crash
        ensures !Uninterrupted(h, next, rest[..i]).finalized
      {
        assert steps[i + 1] == Crash;
      }
    }
    if (steps[0] == Crash ==> !r.finalized) && CrashesBeforeFinal(h, next, rest) {
      forall i | 0 <= i < |steps| && steps[i] == Crash
        ensures !Uninterrupted(h, r, steps[..i]).finalized
      {
        if i > 0 { assert rest[i - 1] == Crash; }
      }
    }
  }

  /** Crashes in a run change nothing, not a receipt, not a refusal, not the bundle, not the recorder at
      the end, exactly if none of them comes after a successful finalize. */
  lemma {:induction false} CrashesAreInvisible(h: Hash, r: Recorder, steps: seq<Step>)
    requires RecorderInv(h, r) && AllTyped(steps)
    ensures AllTyped(WithoutCrashes(steps))
    ensures Play(h, r, steps) == Play(h, r, WithoutCrashes(steps)) <==> CrashesBeforeFinal(h, r, steps)
    decreases |steps|
  {
    WithoutCrashesIsTyped(steps);
    if steps != [] {
      CrashesShift(h, r, steps);
      DoKeeps(h, r, steps[0]);
      UninterruptedIsRun(h, r, steps);
      if steps[0] == Crash {
        CrashFirst(h, r, steps);
      } else {
        hide RecorderInv;
        CrashesAreInvisible(h, Do(h, r, steps[0]).0.value, steps[1..]);
        assert WithoutCrashes(steps) == [steps[0]] + WithoutCrashes(steps[1..]);
        hide WithoutCrashes, Do, CrashesBeforeFinal;
        StepFirst(h, r, steps[0], steps[1..], WithoutCrashes(steps[1..]));
        assert steps == [steps[0]] + steps[1..];
      }
    }
  }

  lemma {:induction false} CrashFirst(h: Hash, r: Recorder, steps: seq<Step>)
    requires RecorderInv(h, r) && AllTyped(steps) && steps != [] && steps[0] == Crash
    requires AllTyped(WithoutCrashes(steps)) && Play(h, r, WithoutCrashes(steps)).0.Some?
    requires CrashesBeforeFinal(h, r, steps) <==> !r.finalized && CrashesBeforeFinal(h, r, steps[1..])
    ensures Play(h, r, steps) == Play(h, r, WithoutCrashes(steps)) <==> CrashesBeforeFinal(h, r, steps)
    decreases |steps|, 0
  {
    assert WithoutCrashes(steps) == WithoutCrashes(steps[1..]);
    hide WithoutCrashes, CrashesBeforeFinal;
    if r.finalized {
      assert Do(h, r, Crash) == (None, Some(Refused(AlreadyFinalized)));
      assert Play(h, r, steps).0 == None;
    } else {
      RecoverIsLive(h, r);
      assert Do(h, r, Crash) == (Some(r), None);
      hide Do;
      CrashesAreInvisible(h, r, steps[1..]);
      assert [] + Play(h, r, steps[1..]).1 == Play(h, r, steps[1..]).1;
    }
  }

  /** Two runs with one first step are equal exactly if the rest of them are. */
  lemma StepFirst(h: Hash, r: Recorder, step: Step, a: seq<Step>, b: seq<Step>)
    requires step != Crash && Typed(step) && AllTyped(a) && AllTyped(b)
    ensures AllTyped([step] + a) && AllTyped([step] + b)
    ensures var next := Do(h, r, step).0.value;
            Play(h, r, [step] + a) == Play(h, r, [step] + b) <==> Play(h, next, a) == Play(h, next, b)
  {
    hide Do;
    var (next, told) := Do(h, r, step);
    var (x, y) := (Play(h, next.value, a), Play(h, next.value, b));
    PlayFirst(h, r, [step] + a);
    PlayFirst(h, r, [step] + b);
    assert ([step] + a)[1..] == a && ([step] + b)[1..] == b;
    var first := [told.value];
    assert (first + x.1)[1..] == x.1 && (first + y.1)[1..] == y.1;
  }

  lemma PlayFirst(h: Hash, r: Recorder, steps: seq<Step>)
    requires steps != [] && AllTyped(steps) && Do(h, r, steps[0]).0.Some?
    ensures var (next, told) := Do(h, r, steps[0]);
            var (last, rest) := Play(h, next.value, steps[1..]);
            Play(h, r, steps) == (last, (if told.Some? then [told.value] else []) + rest)
  {
  }

  lemma {:induction false} LastAliveKeeps(h: Hash, r: Recorder, steps: seq<Step>)
    requires RecorderInv(h, r) && AllTyped(steps)
    ensures RecorderInv(h, LastAlive(h, r, steps))
    decreases |steps|
  {
    hide RecorderInv;
    if steps != [] {
      DoKeeps(h, r, steps[0]);
      hide Do;
      if Do(h, r, steps[0]).0.Some? { LastAliveKeeps(h, Do(h, r, steps[0]).0.value, steps[1..]); }
    }
  }

  /** At any durable append of any run, the journal so far is one that recovery takes. */
  lemma EveryCutIsRecoverable(h: Hash, r: Recorder, steps: seq<Step>, cut: nat)
    requires RecorderInv(h, r) && AllTyped(steps)
    requires cut <= |LastAlive(h, r, steps).receipts|
    ensures var end := LastAlive(h, r, steps);
            var back := Recover(h, end.header, end.receipts[..cut], end.storeId, false, false);
            back.Ok? && RecorderInv(h, back.value) && back.value.receipts == end.receipts[..cut]
  {
    LastAliveKeeps(h, r, steps);
    var end := LastAlive(h, r, steps);
    AcceptedIsPrefixClosed(h, end.header, end.receipts, cut);
    hide Accepted, RecordedStatus;
  }

  // ----- where a crash is visible -----

  /** A journal of one receipt that needs no earlier one. */
  lemma FirstReceiptAccepted(h: Hash, header: Header, body: Body, stamp: Stamp)
    requires HeaderShape(header) && header.sha == h(HeaderContent(header.body))
    requires StableId(stamp.occurrence) && Count(stamp.logicalTime) && header.body.createdAt <= stamp.observedAt
    requires BodyShape(body) && !body.CredentialScope? && !body.SideEffect?
    requires body.TerminalBody? ==> body.precedingCount == 0 && body.precedingHead == GENESIS
    ensures Accepted(h, header, [NextReceipt(h, header, [], body, stamp)])
  {
    hide BodyShape, StableId, CanonicalIds;
    var receipts := [NextReceipt(h, header, [], body, stamp)];
    assert receipts[..0] == [];
    assert Clean(h, header, receipts, 0);
  }

  /** A run of a new recorder that ends, finalizes and then crashes: the crash is answered with the error
      of a failed recovery and no recorder is left, while without it the recorder lives on. */
  lemma CrashAfterFinalizeIsVisible(h: Hash, header: Header, storeId: string, stamp: Stamp)
    requires HeaderShape(header) && header.sha == h(HeaderContent(header.body)) && StableId(storeId)
    requires StableId(stamp.occurrence) && Count(stamp.logicalTime) && header.body.createdAt <= stamp.observedAt
    ensures var r := NewRecorder(header, storeId);
            var (end, final) := (TerminalizeStep(StatusCompleted, [], false, stamp), FinalizeStep(stamp.observedAt));
            && !CrashesBeforeFinal(h, r, [end, final, Crash])
            && Play(h, r, [end, final, Crash]).0 == None
            && Play(h, r, [end, final]).0.Some?
            && Play(h, r, [end, final, Crash]).1 == Play(h, r, [end, final]).1 + [Refused(AlreadyFinalized)]
  {
    hide BodyShape, StableId, CanonicalIds, HeaderShape, Verified, BundleOf, RecorderInv;
    var r := NewRecorder(header, storeId);
    var (end, final) := (TerminalizeStep(StatusCompleted, [], false, stamp), FinalizeStep(stamp.observedAt));
    var steps := [end, final, Crash];
    EndedFirst(h, header, storeId, stamp);
    var ended := Do(h, r, end).0.value;
    FinalizeExactly(h, ended, stamp.observedAt);
    hide Accepted, LastTime;
    var done := Do(h, ended, final).0.value;
    assert done.finalized && Do(h, done, Crash) == (None, Some(Refused(AlreadyFinalized)));
    hide Do;
    CrashAnswered(h, r, end, ended, final, done);
  }

  lemma CrashAnswered(h: Hash, r: Recorder, end: Step, ended: Recorder, final: Step, done: Recorder)
    requires Typed(end) && Typed(final) && end != Crash && final != Crash
    requires Do(h, r, end).0 == Some(ended) && Do(h, ended, final).0 == Some(done)
    requires done.finalized && Do(h, done, Crash) == (None, Some(Refused(AlreadyFinalized)))
    ensures var steps := [end, final, Crash];
            && !CrashesBeforeFinal(h, r, steps) && Play(h, r, steps).0 == None && Play(h, r, [end, final]).0.Some?
            && Play(h, r, steps).1 == Play(h, r, [end, final]).1 + [Refused(AlreadyFinalized)]
  {
    hide Do;
    var steps, none: seq<Step> := [end, final, Crash], [];
    assert steps[1..] == [final, Crash] && [final, Crash][1..] == [Crash] && [Crash][1..] == none;
    assert [end, final][1..] == [final] && [final][1..] == none;
    assert steps[..2] == [end, final] && steps[2] == Crash;
    PlayFirst(h, r, steps);
    PlayFirst(h, ended, [final, Crash]);
    PlayFirst(h, r, [end, final]);
    PlayFirst(h, ended, [final]);
    assert Play(h, done, [Crash]) == (None, [Refused(AlreadyFinalized)]);
    assert Play(h, done, none) == (Some(done), []);
    assert Uninterrupted(h, done, none) == done;
    assert Uninterrupted(h, ended, [final]) == done;
    assert Uninterrupted(h, r, [end, final]) == done;
  }

  lemma EndedFirst(h: Hash, header: Header, storeId: string, stamp: Stamp)
    requires HeaderShape(header) && header.sha == h(HeaderContent(header.body)) && StableId(storeId)
    requires StableId(stamp.occurrence) && Count(stamp.logicalTime) && header.body.createdAt <= stamp.observedAt
    ensures var ended := Do(h, NewRecorder(header, storeId), TerminalizeStep(StatusCompleted, [], false, stamp)).0.value;
            && RecorderInv(h, ended) && !ended.finalized && ended.status == Some(StatusCompleted)
            && |ended.receipts| == 1 && LastTime(ended.header, ended.receipts) == stamp.observedAt
  {
    hide StableId;
    var r := NewRecorder(header, storeId);
    var body := EndOf(r, StatusCompleted, [], false);
    FirstReceiptAccepted(h, header, body, stamp);
    hide Accepted;
    var receipts := [NextReceipt(h, header, [], body, stamp)];
    assert r.receipts + receipts == receipts;
    assert receipts[0].IsTerminal();
  }

  // ----- bundles -----

  lemma LastIsTerminal(h: Hash, header: Header, receipts: seq<Receipt>)
    requires Accepted(h, header, receipts)
    ensures HasTerminal(receipts) <==> RecordedStatus(receipts).Some?
  {
    if HasTerminal(receipts) {
      var i :| 0 <= i < |receipts| && receipts[i].IsTerminal();
      TerminalIsLast(h, header, receipts, i);
    }
  }

  /** A bundle verifies exactly if it is the bundle a recorder with its receipts would write, anchored
      no earlier than finalized and finalized no earlier than the terminal receipt. */
  lemma VerifiedExactly(h: Hash, b: Bundle)
    ensures Verified(h, b) <==>
              && Accepted(h, b.header, b.receipts)
              && RecordedStatus(b.receipts).Some?
              && |b.receipts| <= MAX_SAFE_INTEGER
              && StableId(b.anchor.body.storeId)
              && LastTime(b.header, b.receipts) <= b.finalization.body.finalizedAt <= b.anchor.body.anchoredAt
              && b == BundleOf(h, b.header, b.receipts, RecordedStatus(b.receipts).value, b.anchor.body.storeId,
                               b.finalization.body.finalizedAt, b.anchor.body.anchoredAt)
  {
    if Accepted(h, b.header, b.receipts) {
      LastIsTerminal(h, b.header, b.receipts);
      assert PrefixShape(b.header, b.receipts);
      assert StableId(b.header.body.session);
      hide Accepted, HasTerminal, RecordedStatus, StableId, PrefixShape, LastTime;
      if Verified(h, b) {
        VerifiedFields(h, b);
      }
      if RecordedStatus(b.receipts).Some?
         && |b.receipts| <= MAX_SAFE_INTEGER
         && StableId(b.anchor.body.storeId)
         && LastTime(b.header, b.receipts) <= b.finalization.body.finalizedAt <= b.anchor.body.anchoredAt
         && b == BundleOf(h, b.header, b.receipts, RecordedStatus(b.receipts).value, b.anchor.body.storeId,
                          b.finalization.body.finalizedAt, b.anchor.body.anchoredAt) {
        RecorderBundleVerifies(h, b.header, b.receipts, b.anchor.body.storeId,
                               b.finalization.body.finalizedAt, b.anchor.body.anchoredAt);
      }
    }
  }

  lemma RecorderBundleVerifies(h: Hash, header: Header, receipts: seq<Receipt>, storeId: string,
                               finalizedAt: Time, anchoredAt: Time)
    requires Accepted(h, header, receipts) && StableId(header.body.session) && StableId(storeId)
    requires RecordedStatus(receipts).Some? && |receipts| <= MAX_SAFE_INTEGER
    requires LastTime(header, receipts) <= finalizedAt <= anchoredAt
    ensures Verified(h, BundleOf(h, header, receipts, RecordedStatus(receipts).value, storeId, finalizedAt, anchoredAt))
  {
    LastIsTerminal(h, header, receipts);
    NonEmptyWithStatus(receipts);
    assert PrefixShape(header, receipts);
    hide Accepted, HasTerminal, RecordedStatus, StableId, PrefixShape, LastTime;
    var b := BundleOf(h, header, receipts, RecordedStatus(receipts).value, storeId, finalizedAt, anchoredAt);
    assert BundleShape(b);
    assert forall issue :: !FinalRaises(h, b, issue);
  }

  lemma NonEmptyWithStatus(receipts: seq<Receipt>)
    ensures RecordedStatus(receipts).Some? ==> |receipts| >= 1
  {
  }

  lemma VerifiedFields(h: Hash, b: Bundle)
    requires Verified(h, b)
    ensures var (f, anchor, status) := (b.finalization.body, b.anchor.body, RecordedStatus(b.receipts));
            && status.Some?
            && f == FinalizationBody(b.header.body.session, b.header.sha, f.finalizedAt, |b.receipts|,
                                     HeadOf(b.receipts), HeadOf(b.receipts), status.value)
            && b.finalization.sha == h(FinalizationContent(f))
            && anchor == AnchorBody(anchor.storeId, 0, anchor.anchoredAt, GENESIS, StatementOf(h, b.finalization))
            && b.anchor.sha == h(AnchorContent(anchor))
            && LastTime(b.header, b.receipts) <= f.finalizedAt <= anchor.anchoredAt
            && |b.receipts| <= MAX_SAFE_INTEGER && StableId(anchor.storeId)
  {
    hide Accepted, HasTerminal, RecordedStatus, StableId, PrefixShape, LastTime, HeadOf, StatementOf;
    assert !FinalRaises(h, b, FinalSessionMismatch) && !FinalRaises(h, b, FinalHeaderMismatch);
    assert !FinalRaises(h, b, FinalCountMismatch) && !FinalRaises(h, b, FinalHeadMismatch);
    assert !FinalRaises(h, b, TerminalReceiptMissing) && !FinalRaises(h, b, TerminalReceiptMismatch);
    assert !FinalRaises(h, b, FinalStatusMismatch) && !FinalRaises(h, b, FinalPrecedesTerminal);
    assert !FinalRaises(h, b, FinalDigestMismatch) && !FinalRaises(h, b, StatementBindingMismatch);
    assert !FinalRaises(h, b, AnchorDigestMismatch) && !FinalRaises(h, b, AnchorPrecedesFinalization);
    assert !FinalRaises(h, b, AnchorUnverified);
  }

  /** finalize succeeds exactly once a terminal receipt is recorded and the given instant does not
      precede it. */
  lemma FinalizeExactly(h: Hash, r: Recorder, finalizedAt: Time)
    requires RecorderInv(h, r) && !r.finalized && |r.receipts| <= MAX_SAFE_INTEGER
    ensures Finalize(h, r, finalizedAt).1.Ok? <==>
              r.status.Some? && LastTime(r.header, r.receipts) <= finalizedAt
  {
    if r.status.Some? {
      var bundle := BundleOf(h, r.header, r.receipts, r.status.value, r.storeId, finalizedAt, finalizedAt);
      VerifiedExactly(h, bundle);
      hide Verified, Accepted, StableId;
    }
  }

  // ----- provenance, privilege, termination -----

  predicate Source(receipts: seq<Receipt>, i: nat, j: nat) {
    && i < |receipts| && j < |receipts|
    && receipts[i].Body().SideEffect?
    && receipts[j].sha == receipts[i].Body().source
  }

  /** A walk along source_receipt_sha256. */
  predicate Trail(receipts: seq<Receipt>, trail: seq<nat>) {
    && trail != []
    && (forall k :: 0 <= k < |trail| ==> trail[k] < |receipts|)
    && forall k :: 0 < k < |trail| ==> Source(receipts, trail[k - 1], trail[k])
  }

  lemma SideEffectHasSource(h: Hash, header: Header, receipts: seq<Receipt>, i: nat) returns (j: nat)
    requires Accepted(h, header, receipts) && i < |receipts| && receipts[i].Body().SideEffect?
    ensures j < i && Source(receipts, i, j)
  {
    hide PrefixShape, ChainRaises;
    assert Clean(h, header, receipts, i);
    assert !Raises(h, header, receipts, i, SourceMissing);
    assert receipts[i].Body().source in Digests(receipts[..i]);
    j :| 0 <= j < i && receipts[..i][j].sha == receipts[i].Body().source;
  }

  /** From every side effect there is a walk back to a receipt that is not a side effect. */
  lemma {:induction false} SideEffectHasOrigin(h: Hash, header: Header, receipts: seq<Receipt>, i: nat) returns (trail: seq<nat>)
    requires Accepted(h, header, receipts) && i < |receipts|
    ensures Trail(receipts, trail) && trail[0] == i
    ensures !receipts[trail[|trail| - 1]].Body().SideEffect?
    ensures forall k :: 0 < k < |trail| ==> trail[k] < trail[k - 1]
    decreases i
  {
    trail := [i];
    if receipts[i].Body().SideEffect? {
      var j := SideEffectHasSource(h, header, receipts, i);
      var rest := SideEffectHasOrigin(h, header, receipts, j);
      trail := [i] + rest;
    }
  }

  lemma ReceiptAt(h: Hash, header: Header, receipts: seq<Receipt>, i: nat)
    requires Accepted(h, header, receipts) && i < |receipts|
    ensures receipts[i].content.sequence == i
    ensures receipts[i].sha == h(ReceiptContent(receipts[i].content))
    ensures receipts[i].content.previous == HeadOf(receipts[..i])
    ensures receipts[i].content.headerSha == header.sha
  {
    hide PrefixShape, BodyRaises;
    assert Clean(h, header, receipts, i);
    assert !Raises(h, header, receipts, i, SequenceGap);
    assert !Raises(h, header, receipts, i, DigestMismatch);
    assert !Raises(h, header, receipts, i, PredecessorMismatch);
    assert !Raises(h, header, receipts, i, HeaderMismatch);
  }

  lemma DigestsAreUnique(h: Hash, header: Header, receipts: seq<Receipt>, i: nat, j: nat)
    requires Accepted(h, header, receipts) && CollisionFree(h) && i < |receipts| && j < |receipts|
    requires receipts[i].sha == receipts[j].sha
    ensures i == j
  {
    ReceiptAt(h, header, receipts, i);
    ReceiptAt(h, header, receipts, j);
  }

  /** Every walk along sources strictly descends, and only one receipt can come next. */
  lemma ProvenanceIsWellFounded(h: Hash, header: Header, receipts: seq<Receipt>, trail: seq<nat>)
    requires Accepted(h, header, receipts) && CollisionFree(h) && Trail(receipts, trail)
    ensures forall k :: 0 < k < |trail| ==> trail[k] < trail[k - 1]
    ensures receipts[trail[|trail| - 1]].Body().SideEffect? <==> exists j: nat :: Trail(receipts, trail + [j])
    ensures forall i, j :: Trail(receipts, trail + [i]) && Trail(receipts, trail + [j]) ==> i == j
  {
    hide Accepted, CollisionFree;
    forall k | 0 < k < |trail|
      ensures trail[k] < trail[k - 1]
    {
      assert Source(receipts, trail[k - 1], trail[k]);
      var j := SideEffectHasSource(h, header, receipts, trail[k - 1]);
      DigestsAreUnique(h, header, receipts, j, trail[k]);
    }
    var end := trail[|trail| - 1];
    forall j: nat
      ensures Trail(receipts, trail + [j]) <==> Source(receipts, end, j)
    {
      TrailExtends(receipts, trail, j);
    }
    if receipts[end].Body().SideEffect? {
      var j := SideEffectHasSource(h, header, receipts, end);
      assert Trail(receipts, trail + [j]);
    }
    forall i: nat, j: nat | Trail(receipts, trail + [i]) && Trail(receipts, trail + [j])
      ensures i == j
    {
      DigestsAreUnique(h, header, receipts, i, j);
    }
  }

  lemma TrailExtends(receipts: seq<Receipt>, trail: seq<nat>, j: nat)
    requires Trail(receipts, trail)
    ensures Trail(receipts, trail + [j]) <==> Source(receipts, trail[|trail| - 1], j)
  {
    hide Source;
    var grown := trail + [j];
    assert grown[|trail|] == j && grown[|trail| - 1] == trail[|trail| - 1];
    if Trail(receipts, grown) {
      assert Source(receipts, grown[|trail| - 1], grown[|trail|]);
    }
    if Source(receipts, trail[|trail| - 1], j) {
      assert j < |receipts| by {
        SourceInRange(receipts, trail[|trail| - 1], j);
      }
    }
  }

  lemma SourceInRange(receipts: seq<Receipt>, i: nat, j: nat)
    requires Source(receipts, i, j)
    ensures j < |receipts|
  {
  }

  /** Every scope resolved in an accepted journal was requested and declared. */
  lemma LeastPrivilege(h: Hash, header: Header, receipts: seq<Receipt>, i: nat, scope: string)
    requires Accepted(h, header, receipts) && i < |receipts|
    requires receipts[i].Body().CredentialScope? && scope in receipts[i].Body().resolved
    ensures scope in receipts[i].Body().requested && scope in header.body.declaredScopes
    ensures receipts[i].Body().allowed && receipts[i].Body().policySha == header.body.credentialPolicySha
  {
    hide ChainRaises, StableId, CanonicalIds;
    assert Clean(h, header, receipts, i);
    assert !Raises(h, header, receipts, i, FalseCredentialScope);
    assert !Raises(h, header, receipts, i, CredentialPolicyMismatch);
    assert ReceiptShape(receipts[i]);
  }

  /** A terminal receipt is the last one, so there is at most one, and it pins count and head of
      everything before it. */
  lemma TerminalPinsHistory(h: Hash, header: Header, receipts: seq<Receipt>, i: nat)
    requires Accepted(h, header, receipts) && i < |receipts| && receipts[i].Body().TerminalBody?
    ensures i == |receipts| - 1
    ensures receipts[i].Body().precedingCount == i && receipts[i].Body().precedingHead == HeadOf(receipts[..i])
    ensures forall j :: 0 <= j < |receipts| && receipts[j].Body().TerminalBody? ==> j == i
  {
    hide PrefixShape, ChainRaises;
    forall j | 0 <= j < |receipts| && receipts[j].Body().TerminalBody?
      ensures j == |receipts| - 1
    {
      TerminalIsLast(h, header, receipts, j);
    }
    assert Clean(h, header, receipts, i);
    assert !Raises(h, header, receipts, i, TerminalCountMismatch);
    assert !Raises(h, header, receipts, i, TerminalHeadMismatch);
  }

  // ----- what blocked operations leave behind -----

  predicate Stopped(body: Body) {
    match body
    case FileBody(_, _, _, outcome, _, _, _, _) => outcome == EffectBlocked
    case ProcessBody(_, _, _, _, outcome, _, _, _) => outcome == ProcessBlocked
    case NetworkBody(_, _, _, _, outcome, _, _, _) => outcome == EffectBlocked
    case CredentialScope(_, _, _, _, allowed, _, _) => !allowed
    case SideEffect(_, _, _, _, _, _, _, outcome, _, _) => outcome == EffectBlocked
    case TerminalBody(_, _, _, _, _) => false
  }

  /** Bytes, changed content or state, a response, a credential or an exit. */
  predicate LeavesTrace(body: Body) {
    match body
    case FileBody(_, _, _, _, before, after, bytes, _) => bytes != 0 || after != before
    case ProcessBody(_, _, _, _, _, exitCode, signal, _) => exitCode.Some? || signal.Some?
    case NetworkBody(_, _, _, _, _, payload, bytes, _) => bytes != 0 || payload.Some?
    case CredentialScope(_, _, resolved, slots, _, delivery, _) => resolved != [] || slots != [] || delivery.Some?
    case SideEffect(_, _, _, _, response, before, after, _, _, _) => response.Some? || after != before
    case TerminalBody(_, _, _, _, _) => false
  }

  /** What was blocked left a trace exactly if it is a network send or receive that carries a payload: the
      check has no rule for those. */
  lemma BlockedTraceExactly(h: Hash, header: Header, receipts: seq<Receipt>, i: nat)
    requires Accepted(h, header, receipts) && i < |receipts| && Stopped(receipts[i].Body())
    ensures var body := receipts[i].Body();
            LeavesTrace(body) <==> body.NetworkBody? && body.networkOperation in {Send, Receive} && body.payload.Some?
  {
    hide Clean, StableId, CanonicalIds, CanonicalDigests, ContentShape;
    assert ReceiptShape(receipts[i]);
    hide Accepted, ReceiptShape;
    match receipts[i].Body()
    case NetworkBody(operation, _, _, _, _, payload, bytes, _) =>
      assert operation.Connect? || operation.Close? || operation.Send? || operation.Receive?;
    case _ =>
  }

  /** An accepted journal that holds a blocked send of five bytes. */
  lemma BlockedSendMayCarryBytes(h: Hash, header: Header, stamp: Stamp, endpoint: Digest, sent: Digest)
    requires HeaderShape(header) && header.sha == h(HeaderContent(header.body))
    requires StableId(stamp.occurrence) && Count(stamp.logicalTime) && header.body.createdAt <= stamp.observedAt
    ensures var body := NetworkBody(Send, true, "https", endpoint, EffectBlocked, Some(Content("text/plain", 5, sent)), 5, []);
            && Accepted(h, header, [NextReceipt(h, header, [], body, stamp)])
            && Stopped(body) && LeavesTrace(body)
  {
    hide StableId, Accepted;
    var body := NetworkBody(Send, true, "https", endpoint, EffectBlocked, Some(Content("text/plain", 5, sent)), 5, []);
    FirstReceiptAccepted(h, header, body, stamp);
  }
}
