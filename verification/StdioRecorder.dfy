/** The durable stdio recorder: live authorization and terminal calls, recovery from the journal a
    crash left, finalization and the bundle check (src/mcp-stdio-evidence.ts). A call that returns
    has appended its receipt durably, so the journal on disk is always the receipt list. */
module StdioRecorder {
  import opened Common
  import opened StdioJournal

  datatype Recorder = Recorder(
    header: Header,
    receipts: seq<Receipt>,
    open: map<string, OpenTransaction>,
    recovered: bool,
    finalized: bool)

  datatype RecorderError =
    | AlreadyFinalized
    | RecoveredSessionWrite
    | TransactionInvalid
    | RequestIdAlreadyUsed
    | ReceiptInvalid
    | NotOpen
    | AuthorityTerminalMismatch
    | BlockedDispatchClaim
    | OpenTransactionsRemain
    | BundleUnverified
    | JournalTorn
    | RecoveryInvalid

  predicate ValidTransaction(t: Transaction) {
    && StableId(t.requestId) && StableId(t.operationId)
    && SafeInteger(t.attemptNumber) && 1 <= t.attemptNumber
    && SafeInteger(t.requestBytes) && 0 <= t.requestBytes
  }

  function NewRecorder(header: Header): Recorder {
    Recorder(header, [], map[], false, false)
  }

  function NextReceipt(h: Hash, header: Header, receipts: seq<Receipt>, t: Transaction, event: Event, at: Time): Receipt {
    var body := ReceiptBody(header.body.session, header.sha, |receipts|, at, HeadOf(receipts), t, event);
    Receipt(body, h(ReceiptContent(body)))
  }

  /** appendReceipt: durable only if the whole candidate prefix passes its own check. */
  ghost function Append(h: Hash, r: Recorder, t: Transaction, event: Event, at: Time): Result<Recorder, RecorderError> {
    var candidate := r.receipts + [NextReceipt(h, r.header, r.receipts, t, event, at)];
    if Accepted(h, r.header, candidate) then Ok(r.(receipts := candidate)) else Err(ReceiptInvalid)
  }

  predicate Used(r: Recorder, id: string) {
    id in r.open || exists i :: 0 <= i < |r.receipts| && r.receipts[i].Id() == id
  }

  ghost function Authorize(h: Hash, r: Recorder, t: Transaction, decision: Authority, at: Time)
    : Result<Recorder, RecorderError>
  {
    if r.finalized then Err(AlreadyFinalized)
    else if r.recovered then Err(RecoveredSessionWrite)
    else if !ValidTransaction(t) then Err(TransactionInvalid)
    else if Used(r, t.requestId) then Err(RequestIdAlreadyUsed)
    else
      match Append(h, r, t, Authorization(decision), at)
      case Err(e) => Err(e)
      case Ok(next) =>
        var sha := next.receipts[|next.receipts| - 1].sha;
        Ok(next.(open := next.open[t.requestId := OpenTransaction(t, sha, decision)]))
  }

  ghost function Terminate(h: Hash, r: Recorder, id: string, disposition: Disposition, occurrence: Digest, wrote: bool, at: Time)
    : Result<Recorder, RecorderError>
  {
    if r.finalized then Err(AlreadyFinalized)
    else if r.recovered then Err(RecoveredSessionWrite)
    else if id !in r.open then Err(NotOpen)
    else
      var active := r.open[id];
      if (active.decision == Blocked) != (disposition == Refused) then Err(AuthorityTerminalMismatch)
      else if active.decision == Blocked && wrote then Err(BlockedDispatchClaim)
      else
        match Append(h, r, active.transaction,
                     Terminal(active.authorizationSha, disposition, Some(wrote), Some(occurrence), false), at)
        case Err(e) => Err(e)
        case Ok(next) => Ok(next.(open := next.open - {id}))
  }

  // ----- recovery -----

  /** recover: refused once the bundle is written; the torn flag says that the journal's last line has no
      newline. */
  ghost function Recover(h: Hash, header: Header, journal: seq<Receipt>, bundleExists: bool, torn: bool)
    : Result<Recorder, RecorderError>
  {
    if bundleExists then Err(AlreadyFinalized)
    else if torn then Err(JournalTorn)
    else if !Accepted(h, header, journal) then Err(RecoveryInvalid)
    else Ok(Recorder(header, journal, OpenView(journal), true, false))
  }

  function Interruption(active: OpenTransaction): Event {
    Terminal(active.authorizationSha, InterruptedUnknown, None, None, true)
  }

  /** The closing loop of a recovered finalize over the given ids, one clock reading each.
      A refused append leaves what was appended before it. */
  ghost function CloseOpen(h: Hash, r: Recorder, order: seq<string>, readings: seq<Time>)
    : (Recorder, Option<RecorderError>)
    requires |order| == |readings|
    decreases |order|
  {
    if order == [] then (r, None)
    else if order[0] !in r.open then (r, Some(NotOpen))
    else
      match Append(h, r, r.open[order[0]].transaction, Interruption(r.open[order[0]]), readings[0])
      case Err(e) => (r, Some(e))
      case Ok(next) => CloseOpen(h, next.(open := next.open - {order[0]}), order[1..], readings[1..])
  }

  // ----- finalization -----

  predicate Failed(d: Disposition) { d in {ToolFailure, ProtocolFailure, IdentityMismatch} }

  function Tally(c: Counters, event: Event): Counters {
    match event
    case Authorization(Allowed) => c.(total := c.total + 1, allowed := c.allowed + 1)
    case Authorization(Blocked) => c.(total := c.total + 1, blocked := c.blocked + 1)
    case Terminal(_, d, _, _, _) =>
      if d == Completed then c.(completed := c.completed + 1)
      else if Failed(d) then c.(failed := c.failed + 1)
      else if d == InterruptedUnknown then c.(interrupted := c.interrupted + 1)
      else c
  }

  function CountersFor(receipts: seq<Receipt>): Counters {
    if receipts == [] then Counters(0, 0, 0, 0, 0, 0)
    else Tally(CountersFor(receipts[..|receipts| - 1]), receipts[|receipts| - 1].body.event)
  }

  function FinalBundle(h: Hash, r: Recorder, finalizedAt: Time): Bundle {
    var body := FinalizationBody(r.header.body.session, r.header.sha, finalizedAt, |r.receipts|, HeadOf(r.receipts),
                                 CountersFor(r.receipts), r.recovered, r.recovered);
    Bundle(r.header, r.receipts, Finalization(body, h(FinalizationContent(body))))
  }

  predicate Synthesized(receipts: seq<Receipt>) {
    exists i :: 0 <= i < |receipts| && receipts[i].IsTerminal() && receipts[i].body.event.recovered
  }

  datatype FinalIssue =
    | FinalSessionMismatch
    | FinalHeaderMismatch
    | FinalCountMismatch
    | FinalHeadMismatch
    | FinalPrecedesReceipts
    | FinalCountersMismatch
    | FinalDigestMismatch
    | RecoveryFlagMismatch
    | TerminalStatusMismatch

  predicate FinalRaises(h: Hash, b: Bundle, issue: FinalIssue) {
    var f := b.finalization.body;
    match issue
    case FinalSessionMismatch => f.session != b.header.body.session
    case FinalHeaderMismatch => f.headerSha != b.header.sha
    case FinalCountMismatch => f.receiptCount != |b.receipts|
    case FinalHeadMismatch => f.chainHead != HeadOf(b.receipts)
    case FinalPrecedesReceipts => f.finalizedAt < LastTime(b.header, b.receipts)
    case FinalCountersMismatch => f.counters != CountersFor(b.receipts)
    case FinalDigestMismatch => b.finalization.sha != h(FinalizationContent(f))
    case RecoveryFlagMismatch => Synthesized(b.receipts) && !f.recoveryPerformed
    case TerminalStatusMismatch => f.recoveredStatus != f.recoveryPerformed
  }

  /** verifyMcpStdioAccessBundle reports nothing. */
  ghost predicate Verified(h: Hash, b: Bundle) {
    && Accepted(h, b.header, b.receipts)
    && OpenAfter(b.receipts, |b.receipts|) == map[]
    && forall issue :: !FinalRaises(h, b, issue)
  }

  /** The checks of the finalization against the header, and its own. */
  method CheckBinding(h: Hash, b: Bundle) returns (found: set<FinalIssue>)
    ensures forall x :: x in found <==>
      x in {FinalSessionMismatch, FinalHeaderMismatch, FinalDigestMismatch, TerminalStatusMismatch} && FinalRaises(h, b, x)
  {
    hide CountersFor, HeadOf, LastTime, Synthesized;
    found := {};
    var f := b.finalization.body;
    if f.session != b.header.body.session { found := found + {FinalSessionMismatch}; }
    if f.headerSha != b.header.sha { found := found + {FinalHeaderMismatch}; }
    if b.finalization.sha != h(FinalizationContent(f)) { found := found + {FinalDigestMismatch}; }
    if f.recoveredStatus != f.recoveryPerformed { found := found + {TerminalStatusMismatch}; }
  }

  /** The checks of the finalization against the receipts. */
  method CheckTotals(h: Hash, b: Bundle) returns (found: set<FinalIssue>)
    ensures forall x :: x in found <==>
      && x in {FinalCountMismatch, FinalHeadMismatch, FinalPrecedesReceipts, FinalCountersMismatch, RecoveryFlagMismatch}
      && FinalRaises(h, b, x)
  {
    hide CountersFor, HeadOf, LastTime, Synthesized;
    found := {};
    var f := b.finalization.body;
    if f.receiptCount != |b.receipts| { found := found + {FinalCountMismatch}; }
    if f.chainHead != HeadOf(b.receipts) { found := found + {FinalHeadMismatch}; }
    if f.finalizedAt < LastTime(b.header, b.receipts) { found := found + {FinalPrecedesReceipts}; }
    if f.counters != CountersFor(b.receipts) { found := found + {FinalCountersMismatch}; }
    if Synthesized(b.receipts) && !f.recoveryPerformed { found := found + {RecoveryFlagMismatch}; }
  }

  lemma EveryFinalIssue(x: FinalIssue)
    ensures || x in {FinalSessionMismatch, FinalHeaderMismatch, FinalDigestMismatch, TerminalStatusMismatch}
            || x in {FinalCountMismatch, FinalHeadMismatch, FinalPrecedesReceipts, FinalCountersMismatch, RecoveryFlagMismatch}
  {
    assert x.FinalSessionMismatch? || x.FinalHeaderMismatch? || x.FinalDigestMismatch? || x.TerminalStatusMismatch?
           || x.FinalCountMismatch? || x.FinalHeadMismatch? || x.FinalPrecedesReceipts? || x.FinalCountersMismatch?
           || x.RecoveryFlagMismatch?;
  }

  method CheckFinal(h: Hash, b: Bundle) returns (found: set<FinalIssue>)
    ensures forall x :: x in found <==> FinalRaises(h, b, x)
  {
    hide FinalRaises;
    var binding := CheckBinding(h, b);
    var totals := CheckTotals(h, b);
    found := binding + totals;
    forall x
      ensures x in found <==> FinalRaises(h, b, x)
    {
      EveryFinalIssue(x);
    }
  }

  /** verifyMcpStdioAccessBundle over a parsed bundle: empty exactly for a verified one. */
  method VerifyBundle(h: Hash, b: Bundle) returns (blockers: set<Blocker>, issues: set<FinalIssue>)
    ensures forall x :: x in blockers <==> PrefixBlocks(h, b.header, b.receipts, true, x)
    ensures forall x :: x in issues <==> FinalRaises(h, b, x)
    ensures blockers == {} && issues == {} <==> Verified(h, b)
  {
    hide FinalRaises, Accepted;
    blockers := PrefixBlockers(h, b.header, b.receipts, true);
    issues := CheckFinal(h, b);
    AcceptedMeansNoBlocker(h, b.header, b.receipts);
    NoBlockerWhenClosed(h, b, blockers);
    if issues == {} {
      forall issue
        ensures !FinalRaises(h, b, issue)
      {
        assert issue !in issues;
      }
    }
  }

  lemma NoBlockerWhenClosed(h: Hash, b: Bundle, blockers: set<Blocker>)
    requires forall x :: x in blockers <==> PrefixBlocks(h, b.header, b.receipts, true, x)
    ensures blockers == {} <==>
              (forall x :: !PrefixBlocks(h, b.header, b.receipts, false, x)) && OpenAfter(b.receipts, |b.receipts|) == map[]
  {
    hide Raises, WellFormed, OpenAfter;
    forall x
      ensures PrefixBlocks(h, b.header, b.receipts, true, x) <==>
                PrefixBlocks(h, b.header, b.receipts, false, x)
                || (x == OpenTransactions && OpenAfter(b.receipts, |b.receipts|) != map[])
    {
    }
    hide PrefixBlocks;
    if blockers == {} {
      assert OpenTransactions !in blockers;
      forall x
        ensures !PrefixBlocks(h, b.header, b.receipts, false, x)
      {
        assert x !in blockers;
      }
    }
  }

  ghost function Finalize(h: Hash, r: Recorder, order: seq<string>, readings: seq<Time>, finalizedAt: Time)
    : (Recorder, Result<Bundle, RecorderError>)
    requires |order| == |readings|
  {
    if r.finalized then (r, Err(AlreadyFinalized))
    else if !r.recovered && r.open != map[] then (r, Err(OpenTransactionsRemain))
    else
      var (closed, refused) := if r.recovered then CloseOpen(h, r, order, readings) else (r, None);
      match refused
      case Some(e) => (closed, Err(e))
      case None =>
        var bundle := FinalBundle(h, closed, finalizedAt);
        if Verified(h, bundle) then (closed.(finalized := true), Ok(bundle)) else (closed, Err(BundleUnverified))
  }

  // ----- live sessions -----

  datatype Call =
    | AuthorizeCall(transaction: Transaction, decision: Authority, at: Time)
    | TerminalCall(id: string, disposition: Disposition, occurrence: Digest, wrote: bool, at: Time)
    | FinalizeCall(at: Time)

  /** One call on a live (never recovered) recorder; a refused call changes nothing. */
  ghost function Do(h: Hash, r: Recorder, call: Call): Recorder {
    match call
    case AuthorizeCall(t, decision, at) =>
      var out := Authorize(h, r, t, decision, at);
      if out.Ok? then out.value else r
    case TerminalCall(id, disposition, occurrence, wrote, at) =>
      var out := Terminate(h, r, id, disposition, occurrence, wrote, at);
      if out.Ok? then out.value else r
    case FinalizeCall(at) => Finalize(h, r, [], [], at).0
  }

  ghost function Play(h: Hash, r: Recorder, calls: seq<Call>): Recorder
    decreases |calls|
  {
    if calls == [] then r else Play(h, Do(h, r, calls[0]), calls[1..])
  }

  ghost predicate RecorderInv(h: Hash, r: Recorder) {
    Accepted(h, r.header, r.receipts) && r.open == OpenView(r.receipts)
  }
}
