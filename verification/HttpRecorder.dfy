/** The HTTP access recorder: append, finalization, the bundle check and recovery of any durable prefix
    (src/mcp-http-evidence.ts). */
module HttpRecorder {
  import opened Common
  import opened HttpJournal

  datatype Recorder = Recorder(header: Header, receipts: seq<Receipt>, finalized: bool, recovered: bool)

  datatype RecorderError =
    | PostFinalizationWrite
    | RecoveredSessionWrite
    | RequestIdRefused
    | ReceiptInvalid
    | AlreadyFinalized
    | BundleUnverified
    | RecoveryInvalid
    | RecoveryNotSupported

  function NextReceipt(h: Hash, r: Recorder, id: string, request: Evidence, outcome: Outcome, at: Time): Receipt {
    var body := ReceiptBody(r.header.body.session, r.header.sha, |r.receipts|, id, at, HeadOf(r.receipts), request, outcome);
    Receipt(body, h(ReceiptContent(body)))
  }

  ghost function Append(h: Hash, r: Recorder, id: string, request: Evidence, outcome: Outcome, at: Time)
    : Result<Recorder, RecorderError>
  {
    var candidate := r.receipts + [NextReceipt(h, r, id, request, outcome, at)];
    if r.finalized then Err(PostFinalizationWrite)
    else if r.recovered then Err(RecoveredSessionWrite)
    else if !StableId(id) then Err(RequestIdRefused)
    else if ChainAccepted(h, r.header, candidate) then Ok(r.(receipts := candidate))
    else Err(ReceiptInvalid)
  }

  function FinalBundle(h: Hash, r: Recorder, at: Time): Bundle {
    var body := FinalizationBody(true, r.header.body.session, r.header.sha, at, |r.receipts|, HeadOf(r.receipts),
                                 CountersFor(r.receipts), r.recovered, r.recovered);
    Bundle(r.header, r.receipts, Finalization(body, h(FinalizationContent(body))))
  }

  predicate CountersValid(c: Counters) {
    Count(c.total) && Count(c.metadata) && Count(c.acceptedTool) && Count(c.blockedTool)
    && Count(c.unauthorized) && Count(c.malformed) && Count(c.failedTool)
  }

  datatype FinalIssue =
    | FinalSessionMismatch
    | FinalHeaderMismatch
    | FinalizedBeforeCreation
    | FinalSchemaMismatch
    | FinalizedBeforeLastReceipt
    | RecoveryTerminalMismatch
    | FinalCountMismatch
    | FinalHeadMismatch
    | CounterInvalid
    | CountersMismatch
    | FinalDigestMismatch

  predicate FinalRaises(h: Hash, b: Bundle, issue: FinalIssue) {
    var f := b.finalization.body;
    match issue
    case FinalSessionMismatch => f.session != b.header.body.session
    case FinalHeaderMismatch => f.headerSha != b.header.sha
    case FinalizedBeforeCreation => f.finalizedAt < b.header.body.createdAt
    case FinalSchemaMismatch => f.recoverable != b.header.body.recoverable
    case FinalizedBeforeLastReceipt => !NotAfter(LastTime(b.receipts), f.finalizedAt)
    case RecoveryTerminalMismatch => f.recoverable && f.recoveryPerformed != f.recoveredStatus
    case FinalCountMismatch => f.receiptCount != |b.receipts|
    case FinalHeadMismatch => f.chainHead != HeadOf(b.receipts)
    case CounterInvalid => !CountersValid(f.counters)
    case CountersMismatch => f.counters != CountersFor(b.receipts)
    case FinalDigestMismatch => b.finalization.sha != h(FinalizationContent(f))
  }

  /** verifyMcpHttpAccessBundle reports nothing. */
  ghost predicate Verified(h: Hash, b: Bundle) {
    HeaderOk(h, b.header) && ChainAccepted(h, b.header, b.receipts) && forall issue :: !FinalRaises(h, b, issue)
  }

  /** The checks of the finalization against the header, and its own. */
  method CheckBinding(h: Hash, b: Bundle) returns (found: set<FinalIssue>)
    ensures forall x :: x in found <==>
      && x in {FinalSessionMismatch, FinalHeaderMismatch, FinalizedBeforeCreation, FinalSchemaMismatch, RecoveryTerminalMismatch,
               FinalDigestMismatch}
      && FinalRaises(h, b, x)
  {
    hide CountersFor, CountersValid, HeadOf, LastTime, NotAfter;
    found := {};
    var f := b.finalization.body;
    if f.session != b.header.body.session { found := found + {FinalSessionMismatch}; }
    if f.headerSha != b.header.sha { found := found + {FinalHeaderMismatch}; }
    if f.finalizedAt < b.header.body.createdAt { found := found + {FinalizedBeforeCreation}; }
    if f.recoverable != b.header.body.recoverable { found := found + {FinalSchemaMismatch}; }
    if f.recoverable && f.recoveryPerformed != f.recoveredStatus { found := found + {RecoveryTerminalMismatch}; }
    if b.finalization.sha != h(FinalizationContent(f)) { found := found + {FinalDigestMismatch}; }
  }

  /** The checks of the finalization against the receipts, its counters recounted. */
  method CheckTotals(h: Hash, b: Bundle) returns (found: set<FinalIssue>)
    ensures forall x :: x in found <==>
      && x in {FinalizedBeforeLastReceipt, FinalCountMismatch, FinalHeadMismatch, CounterInvalid, CountersMismatch}
      && FinalRaises(h, b, x)
  {
    hide CountersFor, CountersValid, HeadOf, LastTime, NotAfter;
    found := {};
    var f := b.finalization.body;
    if !NotAfter(LastTime(b.receipts), f.finalizedAt) { found := found + {FinalizedBeforeLastReceipt}; }
    if f.receiptCount != |b.receipts| { found := found + {FinalCountMismatch}; }
    if f.chainHead != HeadOf(b.receipts) { found := found + {FinalHeadMismatch}; }
    if !CountersValid(f.counters) { found := found + {CounterInvalid}; }
    var counters := CountReceipts(b.receipts);
    if f.counters != counters { found := found + {CountersMismatch}; }
  }

  lemma EveryFinalIssue(x: FinalIssue)
    ensures || x in {FinalSessionMismatch, FinalHeaderMismatch, FinalizedBeforeCreation, FinalSchemaMismatch, RecoveryTerminalMismatch, FinalDigestMismatch}
            || x in {FinalizedBeforeLastReceipt, FinalCountMismatch, FinalHeadMismatch, CounterInvalid, CountersMismatch}
  {
    assert x.FinalSessionMismatch? || x.FinalHeaderMismatch? || x.FinalizedBeforeCreation?
           || x.FinalSchemaMismatch? || x.RecoveryTerminalMismatch? || x.FinalDigestMismatch?
           || x.FinalizedBeforeLastReceipt? || x.FinalCountMismatch? || x.FinalHeadMismatch? || x.CounterInvalid?
           || x.CountersMismatch?;
  }

  method CheckFinal(h: Hash, b: Bundle) returns (found: set<FinalIssue>)
    ensures forall x :: x in found <==> FinalRaises(h, b, x)
  {
    hide FinalRaises;
    var binding := CheckBinding(h, b);
    var totals := CheckTotals(h, b);
    found := binding + totals;
    forall x
      ensures x in found <==> FinalRaises(h, b, x)
    {
      EveryFinalIssue(x);
    }
  }

  method VerifyBundle(h: Hash, b: Bundle) returns (headerOk: bool, blockers: set<Blocker>, issues: set<FinalIssue>)
    ensures headerOk == HeaderOk(h, b.header)
    ensures forall x :: x in blockers <==> Raises(h, b.header, b.receipts, x)
    ensures forall x :: x in issues <==> FinalRaises(h, b, x)
    ensures headerOk && blockers == {} && issues == {} <==> Verified(h, b)
  {
    hide FinalRaises, ChainAccepted, Raises;
    headerOk := HeaderOk(h, b.header);
    blockers := ReceiptChainBlockers(h, b.header, b.receipts);
    issues := CheckFinal(h, b);
    if issues == {} {
      forall issue
        ensures !FinalRaises(h, b, issue)
      {
        assert issue !in issues;
      }
    }
  }

  ghost function Finalize(h: Hash, r: Recorder, at: Time): (Recorder, Result<Bundle, RecorderError>) {
    if r.finalized then (r, Err(AlreadyFinalized))
    else
      var bundle := FinalBundle(h, r, at);
      if Verified(h, bundle) then (r.(finalized := true), Ok(bundle)) else (r, Err(BundleUnverified))
  }

  ghost function Recover(h: Hash, header: Header, journal: seq<Receipt>, bundleExists: bool, torn: bool)
    : Result<Recorder, RecorderError>
  {
    if bundleExists then Err(AlreadyFinalized)
    else if torn || !HeaderOk(h, header) || !ChainAccepted(h, header, journal) then Err(RecoveryInvalid)
    else if !header.body.recoverable then Err(RecoveryNotSupported)
    else Ok(Recorder(header, journal, false, true))
  }

  ghost predicate RecorderInv(h: Hash, r: Recorder) {
    HeaderOk(h, r.header) && r.header.body.recoverable && ChainAccepted(h, r.header, r.receipts)
  }

  // ----- what the calls promise -----

  /** A request is recorded exactly if its id is new and well-formed, its evidence and outcome pass, and
      the clock did not run backwards. */
  lemma AppendExactly(h: Hash, r: Recorder, id: string, request: Evidence, outcome: Outcome, at: Time)
    requires RecorderInv(h, r) && !r.finalized && !r.recovered
    ensures Append(h, r, id, request, outcome, at).Ok? <==>
              && StableId(id) && id !in RequestIds(r.receipts)
              && EvidenceOk(request) && OutcomeOk(outcome) && NotAfter(LastTime(r.receipts), at)
    ensures Append(h, r, id, request, outcome, at).Ok? ==>
              RecorderInv(h, Append(h, r, id, request, outcome, at).value)
  {
    hide ChainAccepted, StableId, EvidenceOk, OutcomeOk, OutcomeRaises, RequestIds;
    var receipt := NextReceipt(h, r, id, request, outcome, at);
    ChainExtends(h, r.header, r.receipts, receipt);
    OutcomeOkExactly(outcome);
    if Clean(h, r.header, r.receipts, receipt) {
      assert !RaisesAfter(h, r.header, r.receipts, receipt, RequestIdDuplicate);
      assert !RaisesAfter(h, r.header, r.receipts, receipt, RequestIdInvalid);
      assert !RaisesAfter(h, r.header, r.receipts, receipt, RequestRefused);
      assert !RaisesAfter(h, r.header, r.receipts, receipt, TimestampRegressed);
      forall issue
        ensures !OutcomeRaises(outcome, issue)
      {
        assert !RaisesAfter(h, r.header, r.receipts, receipt, OutcomeRefused(issue));
      }
    }
  }

  lemma {:induction false} CountersBounded(receipts: seq<Receipt>)
    ensures var c := CountersFor(receipts);
            && c.total == |receipts| && c.metadata <= |receipts| && c.acceptedTool <= |receipts| && c.blockedTool <= |receipts|
            && c.unauthorized <= |receipts| && c.malformed <= |receipts| && c.failedTool <= |receipts|
  {
    if receipts != [] { CountersBounded(receipts[..|receipts| - 1]); }
  }

  /** Finalization succeeds exactly if it precedes neither creation nor the last receipt. */
  lemma FinalizeExactly(h: Hash, r: Recorder, at: Time)
    requires RecorderInv(h, r) && !r.finalized && |r.receipts| <= MAX_SAFE_INTEGER
    ensures Finalize(h, r, at).1.Ok? <==> r.header.body.createdAt <= at && NotAfter(LastTime(r.receipts), at)
  {
    hide ChainAccepted, HeadOf, LastTime, HeaderOk;
    CountersBounded(r.receipts);
    hide CountersFor;
    var b := FinalBundle(h, r, at);
    if Verified(h, b) {
      assert !FinalRaises(h, b, FinalizedBeforeCreation) && !FinalRaises(h, b, FinalizedBeforeLastReceipt);
    }
  }

  /** Crash anywhere: any durable prefix of an accepted journal recovers, takes no further request, and
      finalizes with an orderly clock to a verified bundle of exactly that prefix. */
  lemma CrashAnywhere(h: Hash, r: Recorder, cut: nat, at: Time)
    requires RecorderInv(h, r) && cut <= |r.receipts| <= MAX_SAFE_INTEGER
    requires r.header.body.createdAt <= at && NotAfter(LastTime(r.receipts[..cut]), at)
    ensures var back := Recover(h, r.header, r.receipts[..cut], false, false);
            && back.Ok?
            && (forall id, request, outcome, t :: Append(h, back.value, id, request, outcome, t).Err?)
            && Finalize(h, back.value, at).1.Ok?
            && Finalize(h, back.value, at).1.value.receipts == r.receipts[..cut]
            && Finalize(h, back.value, at).1.value.finalization.body.recoveryPerformed
            && Verified(h, Finalize(h, back.value, at).1.value)
  {
    ChainIsPrefixClosed(h, r.header, r.receipts, cut);
    hide ChainAccepted, HeaderOk, LastTime;
    FinalizeExactly(h, Recover(h, r.header, r.receipts[..cut], false, false).value, at);
    hide FinalRaises;
  }

  // ----- the object -----

  class McpHttpAccessRecorder {
    const hash: Hash
    const header: Header
    var receiptList: seq<Receipt>
    var finalized: bool
    var recoveredFromInterruption: bool

    ghost function View(): Recorder
      reads this
    {
      Recorder(header, receiptList, finalized, recoveredFromInterruption)
    }

    ghost predicate Valid()
      reads this
    {
      RecorderInv(hash, View())
    }

    constructor (hash: Hash, header: Header)
      requires HeaderOk(hash, header) && header.body.recoverable
      ensures View() == Recorder(header, [], false, false) && this.hash == hash && Valid()
    {
      this.hash, this.header := hash, header;
      receiptList, finalized, recoveredFromInterruption := [], false, false;
    }

    constructor Recovered(hash: Hash, header: Header, journal: seq<Receipt>)
      requires Recover(hash, header, journal, false, false).Ok?
      ensures View() == Recover(hash, header, journal, false, false).value && this.hash == hash && Valid()
    {
      this.hash, this.header := hash, header;
      receiptList, finalized, recoveredFromInterruption := journal, false, true;
    }

    method AppendRequest(id: string, request: Evidence, outcome: Outcome, at: Time) returns (out: Result<Receipt, RecorderError>)
      requires Valid()
      modifies this`receiptList
      ensures Valid()
      ensures var expected := Append(hash, old(View()), id, request, outcome, at);
              if expected.Ok? then
                && out == Ok(NextReceipt(hash, old(View()), id, request, outcome, at))
                && View() == expected.value
              else out == Err(expected.error) && View() == old(View())
    {
      hide ChainAccepted, Raises, StableId, HeaderOk;
      if finalized { return Err(PostFinalizationWrite); }
      if recoveredFromInterruption { return Err(RecoveredSessionWrite); }
      if !StableId(id) { return Err(RequestIdRefused); }
      AppendExactly(hash, View(), id, request, outcome, at);
      var receipt := NextReceipt(hash, Recorder(header, receiptList, finalized, recoveredFromInterruption), id, request, outcome, at);
      var blockers := ReceiptChainBlockers(hash, header, receiptList + [receipt]);
      if blockers != {} { return Err(ReceiptInvalid); }
      receiptList := receiptList + [receipt];
      return Ok(receipt);
    }

    method FinalizeAccess(at: Time) returns (out: Result<Bundle, RecorderError>)
      requires Valid()
      modifies this`finalized
      ensures Valid()
      ensures (View(), out) == Finalize(hash, old(View()), at)
    {
      hide Verified, HeaderOk, Raises, FinalRaises, ChainAccepted;
      if finalized { return Err(AlreadyFinalized); }
      var bundle := FinalBundle(hash, Recorder(header, receiptList, finalized, recoveredFromInterruption), at);
      var headerOk, blockers, issues := VerifyBundle(hash, bundle);
      if !headerOk || blockers != {} || issues != {} { return Err(BundleUnverified); }
      finalized := true;
      return Ok(bundle);
    }
  }
}
