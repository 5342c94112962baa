/** The durable runtime recorder: append, terminalize, finalize, recovery from the journal a crash
    left, and the bundle check (src/runtime-recorder.ts, src/runtime-evidence.ts). An append that
    returns is durable, so the journal on disk is always the receipt list. */
module RuntimeRecorder {
  import opened Common
  import opened RuntimeJournal

  datatype Recorder = Recorder(
    header: Header,
    storeId: string,
    receipts: seq<Receipt>,
    status: Option<TerminalStatus>,
    finalized: bool)

  datatype RecorderError =
    | PostFinalizationWrite
    | PostTerminal
    | TerminalAlreadyRecorded
    | OccurrenceInvalid
    | ReceiptRefused
    | AlreadyFinalized
    | NoTerminal
    | BundleUnverified
    | StoreIdInvalid
    | JournalTorn
    | RecoveryInvalid

  datatype Stamp = Stamp(logicalTime: int, observedAt: Time, occurrence: string)

  function NewRecorder(header: Header, storeId: string): Recorder {
    Recorder(header, storeId, [], None, false)
  }

  function NextReceipt(h: Hash, header: Header, receipts: seq<Receipt>, body: Body, stamp: Stamp): Receipt {
    var content := ReceiptBody(header.body.session, header.sha, |receipts|, stamp.logicalTime, stamp.observedAt,
                               stamp.occurrence, HeadOf(receipts), body);
    Receipt(content, h(ReceiptContent(content)))
  }

  /** buildReceipt and admitAndPersist: durable only if the whole candidate journal passes. */
  ghost function Admit(h: Hash, r: Recorder, body: Body, stamp: Stamp, requireTerminal: bool)
    : Result<Recorder, RecorderError>
  {
    var candidate := r.receipts + [NextReceipt(h, r.header, r.receipts, body, stamp)];
    if !StableId(stamp.occurrence) then Err(OccurrenceInvalid)
    else if Accepted(h, r.header, candidate) && (requireTerminal ==> HasTerminal(candidate)) then
      Ok(r.(receipts := candidate))
    else Err(ReceiptRefused)
  }

  ghost function Append(h: Hash, r: Recorder, body: Body, stamp: Stamp): Result<Recorder, RecorderError>
    requires !body.TerminalBody?
  {
    if r.finalized then Err(PostFinalizationWrite)
    else if r.status.Some? then Err(PostTerminal)
    else Admit(h, r, body, stamp, false)
  }

  function EndOf(r: Recorder, status: TerminalStatus, reasons: seq<string>, crashRecovery: bool): Body {
    TerminalBody(status, reasons, |r.receipts|, HeadOf(r.receipts), crashRecovery)
  }

  ghost function Terminalize(h: Hash, r: Recorder, status: TerminalStatus, reasons: seq<string>, crashRecovery: bool, stamp: Stamp)
    : Result<Recorder, RecorderError>
  {
    if r.finalized then Err(PostFinalizationWrite)
    else if r.status.Some? then Err(TerminalAlreadyRecorded)
    else
      match Admit(h, r, EndOf(r, status, reasons, crashRecovery), stamp, true)
      case Err(e) => Err(e)
      case Ok(next) => Ok(next.(status := Some(status)))
  }

  // ----- the bundle -----

  function StatementOf(h: Hash, f: Finalization): Statement {
    var body := StatementBody(f.body.session, f.body.headerSha, f.sha, f.body.receiptCount, f.body.chainHead);
    Statement(body, h(StatementContent(body)))
  }

  function BundleOf(h: Hash, header: Header, receipts: seq<Receipt>, status: TerminalStatus,
                    storeId: string, finalizedAt: Time, anchoredAt: Time): Bundle
  {
    var head := HeadOf(receipts);
    var body := FinalizationBody(header.body.session, header.sha, finalizedAt, |receipts|, head, head, status);
    var finalization := Finalization(body, h(FinalizationContent(body)));
    var anchor := AnchorBody(storeId, 0, anchoredAt, GENESIS, StatementOf(h, finalization));
    Bundle(header, receipts, finalization, Anchor(anchor, h(AnchorContent(anchor))))
  }

  predicate BundleShape(b: Bundle) {
    && PrefixShape(b.header, b.receipts)
    && StableId(b.finalization.body.session)
    && Count(b.finalization.body.receiptCount) && 1 <= b.finalization.body.receiptCount
    && StableId(b.anchor.body.statement.body.session)
    && Count(b.anchor.body.statement.body.receiptCount) && 1 <= b.anchor.body.statement.body.receiptCount
    && StableId(b.anchor.body.storeId) && Count(b.anchor.body.sequence)
  }

  datatype FinalIssue =
    | FinalSessionMismatch
    | FinalHeaderMismatch
    | FinalCountMismatch
    | FinalHeadMismatch
    | TerminalReceiptMissing
    | TerminalReceiptMismatch
    | FinalStatusMismatch
    | FinalPrecedesTerminal
    | FinalDigestMismatch
    | StatementBindingMismatch
    | AnchorDigestMismatch
    | AnchorPrecedesFinalization
    | AnchorUnverified

  predicate FinalRaises(h: Hash, b: Bundle, issue: FinalIssue) {
    var (f, anchor, status) := (b.finalization.body, b.anchor, RecordedStatus(b.receipts));
    match issue
    case FinalSessionMismatch => f.session != b.header.body.session
    case FinalHeaderMismatch => f.headerSha != b.header.sha
    case FinalCountMismatch => f.receiptCount != |b.receipts|
    case FinalHeadMismatch => f.chainHead != HeadOf(b.receipts)
    case TerminalReceiptMissing => status.None?
    case TerminalReceiptMismatch => status.Some? && f.terminalSha != HeadOf(b.receipts)
    case FinalStatusMismatch => status.Some? && f.status != status.value
    case FinalPrecedesTerminal => status.Some? && f.finalizedAt < LastTime(b.header, b.receipts)
    case FinalDigestMismatch => b.finalization.sha != h(FinalizationContent(f))
    case StatementBindingMismatch => anchor.body.statement != StatementOf(h, b.finalization)
    case AnchorDigestMismatch => anchor.sha != h(AnchorContent(anchor.body))
    case AnchorPrecedesFinalization => anchor.body.anchoredAt < f.finalizedAt
    case AnchorUnverified =>
      || anchor.body.sequence != 0 || anchor.body.previous != GENESIS
      || anchor.body.statement.sha != h(StatementContent(anchor.body.statement.body))
      || anchor.sha != h(AnchorContent(anchor.body))
  }

  /** verifyRuntimeEvidenceBundle reports nothing. */
  ghost predicate Verified(h: Hash, b: Bundle) {
    && BundleShape(b)
    && Accepted(h, b.header, b.receipts)
    && HasTerminal(b.receipts)
    && forall issue :: !FinalRaises(h, b, issue)
  }

  /** The checks of the finalization against header and receipts; the head comes from the scan. */
  method CheckFinalization(h: Hash, b: Bundle, head: Digest) returns (found: set<FinalIssue>)
    requires head == HeadOf(b.receipts)
    ensures forall x :: x in found <==>
      && x in {FinalSessionMismatch, FinalHeaderMismatch, FinalCountMismatch, FinalHeadMismatch, FinalDigestMismatch}
      && FinalRaises(h, b, x)
  {
    hide HeadOf, RecordedStatus, LastTime, StatementOf;
    found := {};
    var f := b.finalization.body;
    if f.session != b.header.body.session { found := found + {FinalSessionMismatch}; }
    if f.headerSha != b.header.sha { found := found + {FinalHeaderMismatch}; }
    if f.receiptCount != |b.receipts| { found := found + {FinalCountMismatch}; }
    if f.chainHead != head { found := found + {FinalHeadMismatch}; }
    if b.finalization.sha != h(FinalizationContent(f)) { found := found + {FinalDigestMismatch}; }
  }

  /** The checks of the finalization against the last receipt, if it is terminal. */
  method CheckTerminal(h: Hash, b: Bundle) returns (found: set<FinalIssue>)
    ensures forall x :: x in found <==>
      && x in {TerminalReceiptMissing, TerminalReceiptMismatch, FinalStatusMismatch, FinalPrecedesTerminal}
      && FinalRaises(h, b, x)
  {
    hide StatementOf;
    found := {};
    var f := b.finalization.body;
    if b.receipts == [] || !b.receipts[|b.receipts| - 1].IsTerminal() { return {TerminalReceiptMissing}; }
    var terminal := b.receipts[|b.receipts| - 1];
    if f.terminalSha != terminal.sha { found := found + {TerminalReceiptMismatch}; }
    if f.status != terminal.Body().status { found := found + {FinalStatusMismatch}; }
    if f.finalizedAt < terminal.content.observedAt { found := found + {FinalPrecedesTerminal}; }
  }

  method CheckAnchor(h: Hash, b: Bundle) returns (found: set<FinalIssue>)
    ensures forall x :: x in found <==>
      && x in {StatementBindingMismatch, AnchorDigestMismatch, AnchorPrecedesFinalization, AnchorUnverified}
      && FinalRaises(h, b, x)
  {
    hide HeadOf, RecordedStatus, LastTime, StatementOf;
    found := {};
    var anchor := b.anchor;
    if anchor.body.statement != StatementOf(h, b.finalization) { found := found + {StatementBindingMismatch}; }
    var anchorSha := h(AnchorContent(anchor.body));
    if anchor.sha != anchorSha { found := found + {AnchorDigestMismatch}; }
    if anchor.body.anchoredAt < b.finalization.body.finalizedAt { found := found + {AnchorPrecedesFinalization}; }
    if anchor.body.sequence != 0 || anchor.body.previous != GENESIS
       || anchor.body.statement.sha != h(StatementContent(anchor.body.statement.body)) || anchor.sha != anchorSha
    {
      found := found + {AnchorUnverified};
    }
  }

  lemma EveryFinalIssue(x: FinalIssue)
    ensures || x in {FinalSessionMismatch, FinalHeaderMismatch, FinalCountMismatch, FinalHeadMismatch, FinalDigestMismatch}
            || x in {TerminalReceiptMissing, TerminalReceiptMismatch, FinalStatusMismatch, FinalPrecedesTerminal}
            || x in {StatementBindingMismatch, AnchorDigestMismatch, AnchorPrecedesFinalization, AnchorUnverified}
  {
    assert x.FinalSessionMismatch? || x.FinalHeaderMismatch? || x.FinalCountMismatch? || x.FinalHeadMismatch?
           || x.FinalDigestMismatch? || x.TerminalReceiptMissing? || x.TerminalReceiptMismatch?
           || x.FinalStatusMismatch? || x.FinalPrecedesTerminal? || x.StatementBindingMismatch?
           || x.AnchorDigestMismatch? || x.AnchorPrecedesFinalization? || x.AnchorUnverified?;
  }

  method CheckFinal(h: Hash, b: Bundle, head: Digest) returns (found: set<FinalIssue>)
    requires head == HeadOf(b.receipts)
    ensures forall x :: x in found <==> FinalRaises(h, b, x)
  {
    hide FinalRaises, HeadOf;
    var finalization := CheckFinalization(h, b, head);
    var terminal := CheckTerminal(h, b);
    var anchor := CheckAnchor(h, b);
    found := finalization + terminal + anchor;
    forall x
      ensures x in found <==> FinalRaises(h, b, x)
    {
      EveryFinalIssue(x);
    }
  }

  lemma ShapeOfPrefix(b: Bundle)
    requires BundleShape(b)
    ensures PrefixShape(b.header, b.receipts)
  {
  }

  /** verifyRuntimeEvidenceBundle: the verdict. */
  method VerifyBundle(h: Hash, b: Bundle) returns (blockers: set<Blocker>, issues: set<FinalIssue>)
    ensures !BundleShape(b) ==> blockers == {SchemaInvalid} && issues == {}
    ensures BundleShape(b) ==>
              && (forall x :: x in blockers <==> PrefixBlocks(h, b.header, b.receipts, true, x))
              && (forall x :: x in issues <==> FinalRaises(h, b, x))
    ensures blockers == {} && issues == {} <==> Verified(h, b)
  {
    hide BundleShape, PrefixBlocks, Accepted, HasTerminal, FinalRaises, HeadOf, RecordedStatus, PrefixShape;
    if !BundleShape(b) {
      return {SchemaInvalid}, {};
    }
    var head, status;
    blockers, head, status := VerifyPrefix(h, b.header, b.receipts, true);
    assert PrefixShape(b.header, b.receipts) by { ShapeOfPrefix(b); }
    issues := CheckFinal(h, b, head);
    AcceptedMeansNoBlocker(h, b.header, b.receipts, true);
    if blockers == {} {
      forall x
        ensures !PrefixBlocks(h, b.header, b.receipts, true, x)
      {
        assert x !in blockers;
      }
    }
    if issues == {} {
      forall issue
        ensures !FinalRaises(h, b, issue)
      {
        assert issue !in issues;
      }
    }
  }

  ghost function Finalize(h: Hash, r: Recorder, finalizedAt: Time): (Recorder, Result<Bundle, RecorderError>) {
    if r.finalized then (r, Err(AlreadyFinalized))
    else if r.receipts == [] || !r.receipts[|r.receipts| - 1].IsTerminal() || r.status.None? then (r, Err(NoTerminal))
    else
      var bundle := BundleOf(h, r.header, r.receipts, r.status.value, r.storeId, finalizedAt, finalizedAt);
      if Verified(h, bundle) then (r.(finalized := true), Ok(bundle)) else (r, Err(BundleUnverified))
  }

  // ----- recovery -----

  ghost function Recover(h: Hash, header: Header, journal: seq<Receipt>, storeId: string, bundleExists: bool, torn: bool)
    : Result<Recorder, RecorderError>
  {
    if bundleExists then Err(AlreadyFinalized)
    else if !StableId(storeId) then Err(StoreIdInvalid)
    else if torn then Err(JournalTorn)
    else if !Accepted(h, header, journal) then Err(RecoveryInvalid)
    else Ok(Recorder(header, storeId, journal, RecordedStatus(journal), false))
  }

  // ----- sessions -----

  datatype Step =
    | AppendStep(body: Body, stamp: Stamp)
    | TerminalizeStep(status: TerminalStatus, reasons: seq<string>, crashRecovery: bool, stamp: Stamp)
    | FinalizeStep(at: Time)
    | Crash

  predicate Typed(step: Step) {
    step.AppendStep? ==> !step.body.TerminalBody?
  }

  datatype Response = Recorded(receipt: Receipt) | Finalized(bundle: Bundle) | Refused(error: RecorderError)

  function Answer(out: Result<Recorder, RecorderError>): Response
    requires out.Ok? ==> out.value.receipts != []
  {
    match out
    case Ok(next) => Recorded(next.receipts[|next.receipts| - 1])
    case Err(e) => Refused(e)
  }

  /** One step: the recorder after it, if there still is one, and what a caller is told. A crash loses the
      object and keeps the journal and the bundle; recovery gives the object back or throws, and then
      nothing is left that could answer. */
  ghost function Do(h: Hash, r: Recorder, step: Step): (result: (Option<Recorder>, Option<Response>))
    requires Typed(step)
    ensures step != Crash ==> result.0.Some? && result.1.Some?
  {
    match step
    case AppendStep(body, stamp) =>
      var out := Append(h, r, body, stamp);
      (Some(if out.Ok? then out.value else r), Some(Answer(out)))
    case TerminalizeStep(status, reasons, crashRecovery, stamp) =>
      var out := Terminalize(h, r, status, reasons, crashRecovery, stamp);
      (Some(if out.Ok? then out.value else r), Some(Answer(out)))
    case FinalizeStep(at) =>
      var (next, out) := Finalize(h, r, at);
      (Some(next), Some(if out.Ok? then Finalized(out.value) else Refused(out.error)))
    case Crash =>
      match Recover(h, r.header, r.receipts, r.storeId, r.finalized, false)
      case Ok(next) => (Some(next), None)
      case Err(e) => (None, Some(Refused(e)))
  }

  predicate AllTyped(steps: seq<Step>) {
    forall i :: 0 <= i < |steps| ==> Typed(steps[i])
  }

  /** A run: the recorder at its end, unless a recovery failed, and all answers. */
  ghost function Play(h: Hash, r: Recorder, steps: seq<Step>): (Option<Recorder>, seq<Response>)
    requires AllTyped(steps)
    decreases |steps|
  {
    if steps == [] then (Some(r), [])
    else
      var (next, told) := Do(h, r, steps[0]);
      var first := if told.Some? then [told.value] else [];
      if next.None? then (None, first)
      else
        var (last, rest) := Play(h, next.value, steps[1..]);
        (last, first + rest)
  }

  /** The last recorder a run has, whose receipts are the journal on disk. */
  ghost function LastAlive(h: Hash, r: Recorder, steps: seq<Step>): Recorder
    requires AllTyped(steps)
    decreases |steps|
  {
    if steps == [] || Do(h, r, steps[0]).0.None? then r else LastAlive(h, Do(h, r, steps[0]).0.value, steps[1..])
  }

  ghost predicate RecorderInv(h: Hash, r: Recorder) {
    Accepted(h, r.header, r.receipts) && r.status == RecordedStatus(r.receipts) && StableId(r.storeId)
  }
}
