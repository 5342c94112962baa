/** What runtime receipts, finalizations and anchors hold, field by field: those the recorder makes, and
    those of an accepted journal or a verified bundle, whoever wrote it (src/runtime-evidence.ts). */
module RuntimeContents {
  import opened Common
  import opened RuntimeJournal
  import opened RuntimeRecorder
  import RuntimeTheorems
  import JournalChains

  // ----- what is recorded -----

  /** Receipt i of a journal, linked to the one before and sealed. */
  predicate Linked(h: Hash, header: Header, receipts: seq<Receipt>, i: nat)
    requires i < |receipts|
  {
    var c := receipts[i].content;
    && c.session == header.body.session && c.headerSha == header.sha && c.sequence == i
    && c.previous == (if i == 0 then GENESIS else receipts[i - 1].sha)
    && receipts[i].sha == h(ReceiptContent(c))
  }

  /** The journal grew by one receipt with the given body and stamp; nothing else changed but the status. */
  predicate Appended(h: Hash, r: Recorder, r': Recorder, body: Body, stamp: Stamp) {
    && |r'.receipts| == |r.receipts| + 1 && r.receipts <= r'.receipts
    && Linked(h, r.header, r'.receipts, |r.receipts|)
    && var c := r'.receipts[|r.receipts|].content;
       && c.body == body && c.logicalTime == stamp.logicalTime && c.observedAt == stamp.observedAt
       && c.occurrence == stamp.occurrence
       && r'.header == r.header && r'.storeId == r.storeId && r'.finalized == r.finalized
  }

  lemma AppendHolds(h: Hash, r: Recorder, body: Body, stamp: Stamp)
    requires !body.TerminalBody?
    ensures var out := Append(h, r, body, stamp);
            out.Ok? ==> Appended(h, r, out.value, body, stamp) && out.value.status == r.status && r.status.None?
  {
    hide Accepted, StableId;
  }

  /** The terminal receipt pins count and head of the receipts before it. */
  lemma TerminalHolds(h: Hash, r: Recorder, status: TerminalStatus, reasons: seq<string>, crashRecovery: bool, stamp: Stamp)
    ensures var out := Terminalize(h, r, status, reasons, crashRecovery, stamp);
            out.Ok? ==>
              var head := if r.receipts == [] then GENESIS else r.receipts[|r.receipts| - 1].sha;
              && Appended(h, r, out.value, TerminalBody(status, reasons, |r.receipts|, head, crashRecovery), stamp)
              && out.value.status == Some(status) && r.status.None?
  {
    hide Accepted, StableId, HasTerminal;
  }

  /** The bundle of a finalized run. */
  lemma FinalBundleHolds(h: Hash, r: Recorder, at: Time)
    ensures var (r', out) := Finalize(h, r, at);
            out.Ok? ==>
              && r' == r.(finalized := true) && out.value.header == r.header && out.value.receipts == r.receipts
              && BundleHolds(h, out.value)
              && out.value.finalization.body.finalizedAt == at && out.value.anchor.body.anchoredAt == at
              && out.value.anchor.body.storeId == r.storeId && Some(out.value.finalization.body.status) == r.status
  {
    hide Verified, BundleHolds;
    var out := Finalize(h, r, at).1;
    if out.Ok? { VerifiedHolds(h, out.value); }
  }

  // ----- what is refused -----

  /** A call that is refused, and for what: the journal refuses only what passes the checks before. */
  lemma AppendRefusedFor(h: Hash, r: Recorder, body: Body, stamp: Stamp)
    requires !body.TerminalBody?
    ensures var out := Append(h, r, body, stamp);
            if r.finalized then out == Err(PostFinalizationWrite)
            else if r.status.Some? then out == Err(PostTerminal)
            else if !StableId(stamp.occurrence) then out == Err(OccurrenceInvalid)
            else out.Ok? || out == Err(ReceiptRefused)
  {
    hide Accepted, StableId;
  }

  lemma TerminalizeRefusedFor(h: Hash, r: Recorder, status: TerminalStatus, reasons: seq<string>, crashRecovery: bool, stamp: Stamp)
    ensures var out := Terminalize(h, r, status, reasons, crashRecovery, stamp);
            if r.finalized then out == Err(PostFinalizationWrite)
            else if r.status.Some? then out == Err(TerminalAlreadyRecorded)
            else if !StableId(stamp.occurrence) then out == Err(OccurrenceInvalid)
            else out.Ok? || out == Err(ReceiptRefused)
  {
    hide Accepted, StableId, HasTerminal;
  }

  /** What finalize and recovery refuse. */
  lemma EndRefusedFor(h: Hash, r: Recorder, at: Time, header: Header, journal: seq<Receipt>, storeId: string,
                      bundleExists: bool, torn: bool)
    ensures var out := Finalize(h, r, at);
            if r.finalized then out == (r, Err(AlreadyFinalized))
            else if r.receipts == [] || !r.receipts[|r.receipts| - 1].content.body.TerminalBody? || r.status.None? then
              out == (r, Err(NoTerminal))
            else out.1.Ok? || out == (r, Err(BundleUnverified))
    ensures var out := Recover(h, header, journal, storeId, bundleExists, torn);
            if bundleExists then out == Err(AlreadyFinalized)
            else if !StableId(storeId) then out == Err(StoreIdInvalid)
            else if torn then out == Err(JournalTorn)
            else if !Accepted(h, header, journal) then out == Err(RecoveryInvalid)
            else out.Ok? && out.value.header == header && out.value.receipts == journal && out.value.storeId == storeId
                 && !out.value.finalized
                 && (out.value.status.Some? <==> journal != [] && journal[|journal| - 1].content.body.TerminalBody?)
  {
    hide Accepted, StableId, Verified;
  }

  // ----- when a receipt is recorded -----

  /** A new recorder has recorded nothing and may be written. */
  lemma NewRecorderHolds(header: Header, storeId: string)
    ensures var r := NewRecorder(header, storeId);
            r.header == header && r.storeId == storeId && r.receipts == [] && r.status.None? && !r.finalized
  {
  }

  predicate ContentGiven(c: Option<Content>) {
    c.Some? ==> PrintableMediaType(c.value.mediaType) && 0 <= c.value.byteLength <= 9_007_199_254_740_991
  }

  /** An exit code and a signal belong to the outcomes that have them; a spawn has not ended, a terminal
      operation has. */
  predicate ProcessGiven(operation: ProcessOperation, outcome: ProcessOutcome, exitCode: Option<int>, signal: Option<string>) {
    && (exitCode.Some? ==> SafeInteger(exitCode.value)) && (signal.Some? ==> SignalName(signal.value))
    && (exitCode == Some(0) <==> outcome == ProcessCompleted)
    && (exitCode.Some? && exitCode.value != 0 <==> outcome == ProcessFailed)
    && (signal.Some? <==> outcome == Signaled)
    && (operation == Spawn ==> outcome == Running || outcome == ProcessBlocked)
    && (operation == ProcessTerminal ==> outcome != Running && outcome != ProcessBlocked)
  }

  /** What a body must say for itself. */
  predicate BodyGiven(body: Body) {
    && CanonicalIds(body.reasons)
    && (body.FileBody? ==>
          && ContentGiven(body.before) && ContentGiven(body.after) && 0 <= body.bytes <= 9_007_199_254_740_991
          && (body.target.Some? <==> body.fileOperation == RenameFile)
          && (body.after != body.before ==>
                body.fileOperation != ReadFile && body.fileOperation != StatFile && body.outcome != EffectBlocked)
          && (body.outcome == EffectBlocked ==> body.bytes == 0))
    && (body.ProcessBody? ==> ProcessGiven(body.processOperation, body.processOutcome, body.exitCode, body.signal))
    && (body.NetworkBody? ==>
          && ContentGiven(body.payload) && body.protocol in {"tcp", "tls", "http", "https", "grpc", "other"}
          && body.bytes == (if body.payload.Some? then body.payload.value.byteLength else 0)
          && (body.networkOperation == Connect || body.networkOperation == Close ==> body.payload.None?))
    && (body.CredentialScope? ==>
          && CanonicalIds(body.requested) && CanonicalIds(body.resolved)
          && (forall k :: 1 <= k < |body.slots| ==> body.slots[k - 1] < body.slots[k])
          && (body.resolved != [] <==> body.allowed) && (body.slots != [] <==> body.allowed)
          && (body.delivery.Some? <==> body.allowed) && (body.allowed ==> body.requested != []))
    && (body.SideEffect? ==>
          && body.effectKind in {"database_mutation", "message_dispatch", "external_tool", "change_control", "other"}
          && (body.outcome == EffectBlocked ==> body.response.None? && body.stateAfter == body.stateBefore))
    && (body.TerminalBody? ==>
          0 <= body.precedingCount <= 9_007_199_254_740_991 && (body.crashRecovery ==> body.status == StatusCrashed))
  }

  lemma ProcessShapeMeans(operation: ProcessOperation, outcome: ProcessOutcome, exitCode: Option<int>, signal: Option<string>)
    ensures ProcessShape(operation, outcome, exitCode, signal) <==> ProcessGiven(operation, outcome, exitCode, signal)
  {
    hide SignalName;
    OutcomeKinds(outcome);
  }

  lemma BodyShapeMeans(body: Body)
    ensures BodyShape(body) <==> BodyGiven(body)
  {
    hide CanonicalIds, ProcessShape, ProcessGiven, PrintableMediaType;
    match body
    case ProcessBody(operation, _, _, _, outcome, exitCode, signal, _) => ProcessShapeMeans(operation, outcome, exitCode, signal);
    case NetworkBody(operation, _, _, _, _, _, _, _) =>
      assert operation.Connect? || operation.Close? || operation.Send? || operation.Receive?;
    case _ =>
  }

  /** What a body must find in the header and in the receipts before it. */
  predicate BodyFits(header: Header, receipts: seq<Receipt>, body: Body) {
    && (body.CredentialScope? ==>
          && body.policySha == header.body.credentialPolicySha
          && forall k :: 0 <= k < |body.resolved| ==>
               body.resolved[k] in body.requested && body.resolved[k] in header.body.declaredScopes)
    && (body.SideEffect? ==> exists j :: 0 <= j < |receipts| && receipts[j].sha == body.source)
  }

  predicate StampFits(header: Header, receipts: seq<Receipt>, stamp: Stamp) {
    && 0 <= stamp.logicalTime <= 9_007_199_254_740_991
    && (forall j :: 0 <= j < |receipts| ==> receipts[j].content.occurrence != stamp.occurrence)
    && if receipts == [] then header.body.createdAt <= stamp.observedAt
       else && receipts[|receipts| - 1].content.observedAt <= stamp.observedAt
            && receipts[|receipts| - 1].content.logicalTime <= stamp.logicalTime
  }

  /** One more receipt after a journal without a terminal. */
  lemma ExtensionAccepted(h: Hash, header: Header, receipts: seq<Receipt>, x: Receipt)
    requires Accepted(h, header, receipts) && !HasTerminal(receipts)
    ensures Accepted(h, header, receipts + [x]) <==> ReceiptShape(x) && Clean(h, header, receipts + [x], |receipts|)
  {
    hide ReceiptShape, HeaderShape, HasTerminal, ChainRaises, PastOf;
    var grown := receipts + [x];
    assert grown[|receipts|] == x;
    forall i | 0 <= i < |receipts|
      ensures Clean(h, header, grown, i) && ReceiptShape(grown[i])
    {
      assert grown[..i] == receipts[..i] && grown[i] == receipts[i];
      assert Clean(h, header, receipts, i);
      NotTerminal(receipts, i);
      forall issue
        ensures !Raises(h, header, grown, i, issue)
      {
        assert !Raises(h, header, receipts, i, issue);
      }
    }
  }

  lemma NotTerminal(receipts: seq<Receipt>, i: nat)
    requires !HasTerminal(receipts) && i < |receipts|
    ensures !receipts[i].content.body.TerminalBody?
  {
    assert !receipts[i].IsTerminal();
  }

  lemma NextIsClean(h: Hash, header: Header, receipts: seq<Receipt>, body: Body, stamp: Stamp)
    requires !HasTerminal(receipts) && !body.TerminalBody?
    requires forall i :: 0 <= i < |receipts| ==> 0 <= receipts[i].content.logicalTime
    requires 0 <= stamp.logicalTime <= 9_007_199_254_740_991
    ensures Clean(h, header, receipts + [NextReceipt(h, header, receipts, body, stamp)], |receipts|)
            <==> BodyFits(header, receipts, body) && StampFits(header, receipts, stamp)
  {
    hide HasTerminal, HeaderShape, BodyShape;
    var x := NextReceipt(h, header, receipts, body, stamp);
    var grown := receipts + [x];
    assert grown[..|receipts|] == receipts && grown[|receipts|] == x;
    if Clean(h, header, grown, |receipts|) {
      assert !Raises(h, header, grown, |receipts|, TimestampRegressed) && !Raises(h, header, grown, |receipts|, LogicalTimeRegressed);
      assert !Raises(h, header, grown, |receipts|, OccurrenceReused) && !Raises(h, header, grown, |receipts|, SourceMissing);
      assert !Raises(h, header, grown, |receipts|, CredentialPolicyMismatch);
      assert !Raises(h, header, grown, |receipts|, FalseCredentialScope);
      forall j | 0 <= j < |receipts|
        ensures receipts[j].content.occurrence in Occurrences(receipts)
      {
      }
    }
  }

  lemma NoStatusNoTerminal(h: Hash, r: Recorder)
    requires RecorderInv(h, r) && r.status.None?
    ensures !HasTerminal(r.receipts) && Accepted(h, r.header, r.receipts) && StableId(r.header.body.session)
    ensures forall i :: 0 <= i < |r.receipts| ==> 0 <= r.receipts[i].content.logicalTime
  {
    RuntimeTheorems.LastIsTerminal(h, r.header, r.receipts);
    hide Clean, BodyShape, RecordedStatus, HasTerminal, StableId;
    assert HeaderShape(r.header);
    forall i | 0 <= i < |r.receipts|
      ensures 0 <= r.receipts[i].content.logicalTime
    {
      assert ReceiptShape(r.receipts[i]);
    }
  }

  /** An append to a running journal is recorded exactly if its occurrence is well-formed and new, neither of
      its times steps back, its body says what its kind asks for, a credential receipt resolves only what was
      requested and declared under the header's policy, and a side effect names a recorded source. */
  lemma AppendRecordedExactly(h: Hash, r: Recorder, body: Body, stamp: Stamp)
    requires RecorderInv(h, r) && !r.finalized && r.status.None? && |r.receipts| <= MAX_SAFE_INTEGER && !body.TerminalBody?
    ensures Append(h, r, body, stamp).Ok? <==>
              && StableId(stamp.occurrence) && BodyGiven(body)
              && BodyFits(r.header, r.receipts, body) && StampFits(r.header, r.receipts, stamp)
  {
    NoStatusNoTerminal(h, r);
    BodyShapeMeans(body);
    hide RecorderInv, Accepted, HasTerminal, BodyShape, BodyGiven, BodyFits, StableId, Clean;
    var x := NextReceipt(h, r.header, r.receipts, body, stamp);
    ExtensionAccepted(h, r.header, r.receipts, x);
    if 0 <= stamp.logicalTime <= 9_007_199_254_740_991 { NextIsClean(h, r.header, r.receipts, body, stamp); }
  }

  // ----- what is verified -----

  /** Finalization, statement and anchor each name what they rest on. */
  predicate BundleHolds(h: Hash, b: Bundle) {
    && b.receipts != []
    && var last := b.receipts[|b.receipts| - 1];
       var (f, statement) := (b.finalization.body, b.anchor.body.statement);
       && last.content.body.TerminalBody?
       && f.session == b.header.body.session && f.headerSha == b.header.sha && f.receiptCount == |b.receipts|
       && f.chainHead == last.sha && f.terminalSha == last.sha && f.status == last.content.body.status
       && last.content.observedAt <= f.finalizedAt && b.finalization.sha == h(FinalizationContent(f))
       && statement.body.session == b.header.body.session && statement.body.headerSha == b.header.sha
       && statement.body.finalizationSha == b.finalization.sha
       && statement.body.receiptCount == |b.receipts| && statement.body.chainHead == last.sha
       && statement.sha == h(StatementContent(statement.body))
       && b.anchor.body.sequence == 0 && b.anchor.body.previous == GENESIS
       && f.finalizedAt <= b.anchor.body.anchoredAt && b.anchor.sha == h(AnchorContent(b.anchor.body))
  }

  lemma FinalizationRaisesNothing(h: Hash, b: Bundle)
    requires forall issue :: !FinalRaises(h, b, issue)
    ensures b.receipts != [] && b.receipts[|b.receipts| - 1].content.body.TerminalBody?
    ensures var (f, last) := (b.finalization.body, b.receipts[|b.receipts| - 1]);
            && f.session == b.header.body.session && f.headerSha == b.header.sha && f.receiptCount == |b.receipts|
            && f.chainHead == last.sha && f.terminalSha == last.sha && f.status == last.content.body.status
            && last.content.observedAt <= f.finalizedAt && b.finalization.sha == h(FinalizationContent(f))
  {
    hide StatementOf;
    assert !FinalRaises(h, b, TerminalReceiptMissing) && !FinalRaises(h, b, TerminalReceiptMismatch);
    assert !FinalRaises(h, b, FinalSessionMismatch) && !FinalRaises(h, b, FinalHeaderMismatch);
    assert !FinalRaises(h, b, FinalCountMismatch) && !FinalRaises(h, b, FinalHeadMismatch);
    assert !FinalRaises(h, b, FinalStatusMismatch) && !FinalRaises(h, b, FinalPrecedesTerminal);
    assert !FinalRaises(h, b, FinalDigestMismatch);
  }

  lemma AnchorRaisesNothing(h: Hash, b: Bundle)
    requires forall issue :: !FinalRaises(h, b, issue)
    ensures var (f, anchor) := (b.finalization, b.anchor);
            var s := anchor.body.statement;
            && s.body.session == f.body.session && s.body.headerSha == f.body.headerSha && s.body.finalizationSha == f.sha
            && s.body.receiptCount == f.body.receiptCount && s.body.chainHead == f.body.chainHead
            && s.sha == h(StatementContent(s.body))
            && anchor.body.sequence == 0 && anchor.body.previous == GENESIS
            && f.body.finalizedAt <= anchor.body.anchoredAt && anchor.sha == h(AnchorContent(anchor.body))
  {
    hide RecordedStatus, LastTime, HeadOf;
    assert !FinalRaises(h, b, StatementBindingMismatch) && !FinalRaises(h, b, AnchorUnverified);
    assert !FinalRaises(h, b, AnchorPrecedesFinalization) && !FinalRaises(h, b, AnchorDigestMismatch);
  }

  lemma VerifiedHolds(h: Hash, b: Bundle)
    requires Verified(h, b)
    ensures BundleHolds(h, b)
  {
    hide Accepted, BundleShape, HasTerminal, FinalRaises;
    FinalizationRaisesNothing(h, b);
    AnchorRaisesNothing(h, b);
  }

  /** But for collisions, the anchored statement fixes header, receipts and finalization: two verified
      bundles with one statement differ in their anchors' stores and instants at most. */
  lemma StatementFixesBundle(h: Hash, a: Bundle, b: Bundle)
    requires CollisionFree(h) && Verified(h, a) && Verified(h, b)
    requires a.anchor.body.statement == b.anchor.body.statement
    ensures a.finalization == b.finalization && a.header == b.header && a.receipts == b.receipts
  {
    hide Accepted, BundleShape, HasTerminal, FinalRaises;
    VerifiedHolds(h, a);
    VerifiedHolds(h, b);
    JournalChains.RuntimeHeadDeterminesHistory(h, a.header, b.header, a.receipts, b.receipts);
    assert FinalizationContent(a.finalization.body) == FinalizationContent(b.finalization.body);
  }

  // ----- what is accepted -----

  lemma ReceiptHolds(h: Hash, header: Header, receipts: seq<Receipt>, i: nat)
    requires Accepted(h, header, receipts) && i < |receipts|
    ensures header.sha == h(HeaderContent(header.body)) && Linked(h, header, receipts, i)
    ensures (if i == 0 then header.body.createdAt else receipts[i - 1].content.observedAt) <= receipts[i].content.observedAt
    ensures (if i == 0 then 0 else receipts[i - 1].content.logicalTime) <= receipts[i].content.logicalTime
    ensures forall j :: 0 <= j < i ==> receipts[j].content.occurrence != receipts[i].content.occurrence
  {
    hide BodyRaises, BodyShape, StableId, HasTerminal;
    assert ReceiptShape(receipts[i]);
    assert Clean(h, header, receipts, i);
    assert !Raises(h, header, receipts, i, SessionMismatch) && !Raises(h, header, receipts, i, HeaderMismatch);
    assert !Raises(h, header, receipts, i, SequenceGap) && !Raises(h, header, receipts, i, PredecessorMismatch);
    assert !Raises(h, header, receipts, i, DigestMismatch) && !Raises(h, header, receipts, i, TimestampRegressed);
    assert !Raises(h, header, receipts, i, LogicalTimeRegressed) && !Raises(h, header, receipts, i, OccurrenceReused);
    forall j | 0 <= j < i
      ensures receipts[j].content.occurrence in Occurrences(receipts[..i])
    {
      assert receipts[..i][j] == receipts[j];
    }
  }

  lemma ShapeHolds(h: Hash, header: Header, receipts: seq<Receipt>, i: nat)
    requires Accepted(h, header, receipts) && i < |receipts|
    ensures BodyShape(receipts[i].content.body)
  {
    hide Clean, BodyShape, StableId, HeaderShape;
    assert ReceiptShape(receipts[i]);
  }

  /** File effects: a rename alone has a target, reads leave the file as it was, and a blocked effect moves
      and changes nothing. */
  lemma FileHolds(h: Hash, header: Header, receipts: seq<Receipt>, i: nat)
    requires Accepted(h, header, receipts) && i < |receipts| && receipts[i].content.body.FileBody?
    ensures var b := receipts[i].content.body;
            && (b.target.Some? <==> b.fileOperation == RenameFile)
            && (b.after != b.before ==> b.fileOperation != ReadFile && b.fileOperation != StatFile && b.outcome != EffectBlocked)
            && (b.outcome == EffectBlocked ==> b.bytes == 0)
            && 0 <= b.bytes <= 0x1F_FFFF_FFFF_FFFF
            && (b.before.Some? ==> 0 <= b.before.value.byteLength) && (b.after.Some? ==> 0 <= b.after.value.byteLength)
  {
    hide Accepted, CanonicalIds, PrintableMediaType;
    ShapeHolds(h, header, receipts, i);
  }

  /** Processes: an exit code is zero exactly for a completed and non-zero exactly for a failed one, a signal
      belongs to a signaled one alone, and what has not ended has neither; a spawn has not ended, a terminal
      operation has. */
  lemma ProcessHolds(h: Hash, header: Header, receipts: seq<Receipt>, i: nat)
    requires Accepted(h, header, receipts) && i < |receipts| && receipts[i].content.body.ProcessBody?
    ensures var b := receipts[i].content.body;
            && (b.exitCode == Some(0) <==> b.processOutcome == ProcessCompleted)
            && (b.exitCode.Some? && b.exitCode.value != 0 <==> b.processOutcome == ProcessFailed)
            && (b.signal.Some? <==> b.processOutcome == Signaled)
            && (b.processOperation == Spawn ==> b.processOutcome == Running || b.processOutcome == ProcessBlocked)
            && (b.processOperation == ProcessTerminal ==> b.processOutcome != Running && b.processOutcome != ProcessBlocked)
  {
    hide Accepted, CanonicalIds, SignalName;
    ShapeHolds(h, header, receipts, i);
    var b := receipts[i].content.body;
    OutcomeKinds(b.processOutcome);
  }

  lemma OutcomeKinds(o: ProcessOutcome)
    ensures o == Running || o == ProcessCompleted || o == ProcessFailed || o == Signaled || o == ProcessBlocked
  {
    assert o.Running? || o.ProcessCompleted? || o.ProcessFailed? || o.Signaled? || o.ProcessBlocked?;
  }

  /** Network effects: bytes are those of the payload, and opening or closing a connection carries none. */
  lemma NetworkHolds(h: Hash, header: Header, receipts: seq<Receipt>, i: nat)
    requires Accepted(h, header, receipts) && i < |receipts| && receipts[i].content.body.NetworkBody?
    ensures var b := receipts[i].content.body;
            && b.bytes == (if b.payload.Some? then b.payload.value.byteLength else 0) && 0 <= b.bytes
            && (b.networkOperation == Connect || b.networkOperation == Close ==> b.payload.None?)
            && b.protocol in {"tcp", "tls", "http", "https", "grpc", "other"}
  {
    hide Accepted, CanonicalIds, PrintableMediaType;
    ShapeHolds(h, header, receipts, i);
    var o := receipts[i].content.body.networkOperation;
    assert o.Connect? || o.Close? || o.Send? || o.Receive?;
  }

  /** Credentials: an allowed grant asked for scopes, resolved some into slots and delivered them; a refused
      one did none of it. */
  lemma CredentialHolds(h: Hash, header: Header, receipts: seq<Receipt>, i: nat)
    requires Accepted(h, header, receipts) && i < |receipts| && receipts[i].content.body.CredentialScope?
    ensures var b := receipts[i].content.body;
            && (b.resolved != [] <==> b.allowed) && (b.slots != [] <==> b.allowed) && (b.delivery.Some? <==> b.allowed)
            && (b.allowed ==> b.requested != [])
            && (forall k :: 1 <= k < |b.slots| ==> b.slots[k - 1] < b.slots[k])
            && b.policySha == header.body.credentialPolicySha
  {
    hide Accepted, CanonicalIds;
    ShapeHolds(h, header, receipts, i);
    CredentialPolicyHolds(h, header, receipts, i);
  }

  lemma CredentialPolicyHolds(h: Hash, header: Header, receipts: seq<Receipt>, i: nat)
    requires Accepted(h, header, receipts) && i < |receipts| && receipts[i].content.body.CredentialScope?
    ensures receipts[i].content.body.policySha == header.body.credentialPolicySha
  {
    hide PrefixShape, ResolvesOutside, HasTerminal, Occurrences, Digests;
    assert Clean(h, header, receipts, i);
    assert !Raises(h, header, receipts, i, CredentialPolicyMismatch);
  }

  /** Side effects and terminals: a blocked side effect has no response and leaves the state, and only a
      crash is recovered from. */
  lemma EffectHolds(h: Hash, header: Header, receipts: seq<Receipt>, i: nat)
    requires Accepted(h, header, receipts) && i < |receipts|
    ensures var b := receipts[i].content.body;
            && (b.SideEffect? && b.outcome == EffectBlocked ==> b.response.None? && b.stateAfter == b.stateBefore)
            && (b.SideEffect? ==>
                  b.effectKind in {"database_mutation", "message_dispatch", "external_tool", "change_control", "other"})
            && (b.TerminalBody? && b.crashRecovery ==> b.status == StatusCrashed)
  {
    hide Accepted, CanonicalIds, ContentShape, ProcessShape;
    ShapeHolds(h, header, receipts, i);
  }
}
