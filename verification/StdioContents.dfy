/** What the receipts of the stdio journal hold, field by field: those the recorder appends, and those of a
    journal and a bundle that are accepted, whoever wrote them (src/mcp-stdio-evidence.ts). */
module StdioContents {
  import opened Common
  import opened StdioJournal
  import opened StdioRecorder

  // ----- what is recorded -----

  /** Receipt i of a journal, linked to the one before and sealed. */
  predicate Linked(h: Hash, header: Header, receipts: seq<Receipt>, i: nat)
    requires i < |receipts|
  {
    var r := receipts[i];
    && r.body.session == header.body.session && r.body.headerSha == header.sha && r.body.sequence == i
    && r.body.previous == (if i == 0 then GENESIS else receipts[i - 1].sha)
    && r.sha == h(ReceiptContent(r.body))
  }

  /** The journal grew by one receipt of a transaction. */
  predicate Appended(h: Hash, r: Recorder, r': Recorder, t: Transaction, at: Time) {
    && |r'.receipts| == |r.receipts| + 1 && r.receipts <= r'.receipts
    && Linked(h, r.header, r'.receipts, |r.receipts|)
    && r'.receipts[|r.receipts|].body.transaction == t && r'.receipts[|r.receipts|].body.observedAt == at
    && r'.header == r.header && r'.recovered == r.recovered && r'.finalized == r.finalized
  }

  /** An authorization: its receipt carries the decision, and the transaction is open under it. */
  lemma AuthorizationHolds(h: Hash, r: Recorder, t: Transaction, decision: Authority, at: Time)
    ensures var out := Authorize(h, r, t, decision, at);
            out.Ok? ==>
              var receipt := out.value.receipts[|r.receipts|];
              && Appended(h, r, out.value, t, at)
              && receipt.body.event.Authorization? && receipt.body.event.decision == decision
              && out.value.open.Keys == r.open.Keys + {t.requestId}
              && out.value.open[t.requestId].transaction == t && out.value.open[t.requestId].decision == decision
              && out.value.open[t.requestId].authorizationSha == receipt.sha
              && (forall id :: id in r.open && id != t.requestId ==> out.value.open[id] == r.open[id])
  {
    hide Accepted;
  }

  /** A terminal: it ends its own transaction under its authorization, with what the caller says of it. */
  lemma TerminalHolds(h: Hash, r: Recorder, id: string, disposition: Disposition, occurrence: Digest, wrote: bool, at: Time)
    ensures var out := Terminate(h, r, id, disposition, occurrence, wrote, at);
            out.Ok? ==>
              && id in r.open && Appended(h, r, out.value, r.open[id].transaction, at)
              && var event := out.value.receipts[|r.receipts|].body.event;
                 && event.Terminal? && event.authorizationSha == r.open[id].authorizationSha
                 && event.disposition == disposition && event.writeCalled == Some(wrote)
                 && event.sdkOccurrence == Some(occurrence) && !event.recovered
                 && out.value.open == r.open - {id}
                 && (r.open[id].decision == Blocked <==> disposition == Refused)
  {
    hide Accepted;
  }

  /** The interruption of a recovered session: nothing is claimed about the call. */
  lemma InterruptionHolds(h: Hash, r: Recorder, id: string, at: Time)
    requires id in r.open
    ensures var out := CloseOpen(h, r, [id], [at]);
            out.1.None? ==>
              && Appended(h, r, out.0, r.open[id].transaction, at)
              && var event := out.0.receipts[|r.receipts|].body.event;
                 && event.Terminal? && event.authorizationSha == r.open[id].authorizationSha
                 && event.disposition == InterruptedUnknown && event.writeCalled.None? && event.sdkOccurrence.None?
                 && event.recovered && out.0.open == r.open - {id}
  {
    hide Accepted;
    var ids: seq<string>, times: seq<Time> := [id], [at];
    assert ids[1..] == [] && times[1..] == [];
  }

  /** The bundle of a finalized session. */
  lemma FinalBundleHolds(h: Hash, r: Recorder, order: seq<string>, readings: seq<Time>, at: Time)
    requires |order| == |readings|
    ensures var (r', out) := Finalize(h, r, order, readings, at);
            out.Ok? ==>
              && out.value.header == r.header && out.value.receipts == r'.receipts && r'.finalized
              && BundleHolds(h, out.value)
              && var f := out.value.finalization.body;
                 f.finalizedAt == at && (f.recoveryPerformed <==> r'.recovered) && (f.recoveredStatus <==> r'.recovered)
  {
    hide Accepted, CountersFor, CloseOpen, LastTime;
    var (closed, refused) := if r.recovered then CloseOpen(h, r, order, readings) else (r, None);
    if r.recovered { CloseKeepsHeader(h, r, order, readings); }
    if Verified(h, FinalBundle(h, closed, at)) { VerifiedHolds(h, FinalBundle(h, closed, at)); }
  }

  lemma {:induction false} CloseKeepsHeader(h: Hash, r: Recorder, order: seq<string>, readings: seq<Time>)
    requires |order| == |readings|
    ensures CloseOpen(h, r, order, readings).0.header == r.header
    decreases |order|
  {
    hide Accepted;
    if order != [] && order[0] in r.open {
      match Append(h, r, r.open[order[0]].transaction, Interruption(r.open[order[0]]), readings[0])
      case Err(_) =>
      case Ok(next) => CloseKeepsHeader(h, next.(open := next.open - {order[0]}), order[1..], readings[1..]);
    }
  }

  /** A new recorder has recorded nothing and may be written. */
  lemma NewRecorderHolds(header: Header)
    ensures var r := NewRecorder(header);
            r.header == header && r.receipts == [] && r.open == map[] && !r.recovered && !r.finalized
  {
  }

  // ----- what is refused -----

  predicate TransactionGiven(t: Transaction) {
    && StableId(t.requestId) && StableId(t.operationId)
    && 1 <= t.attemptNumber <= 9_007_199_254_740_991 && 0 <= t.requestBytes <= 9_007_199_254_740_991
  }

  /** An authorization that is refused, and for what: the journal refuses only what passes the checks before. */
  lemma AuthorizeRefusedFor(h: Hash, r: Recorder, t: Transaction, decision: Authority, at: Time)
    ensures var out := Authorize(h, r, t, decision, at);
            if r.finalized then out == Err(AlreadyFinalized)
            else if r.recovered then out == Err(RecoveredSessionWrite)
            else if !TransactionGiven(t) then out == Err(TransactionInvalid)
            else if t.requestId in r.open || (exists i :: 0 <= i < |r.receipts| && r.receipts[i].Id() == t.requestId) then
              out == Err(RequestIdAlreadyUsed)
            else out.Ok? || out == Err(ReceiptInvalid)
  {
    hide Accepted, StableId;
  }

  /** A terminal that is refused, and for what. */
  lemma TerminateRefusedFor(h: Hash, r: Recorder, id: string, disposition: Disposition, occurrence: Digest, wrote: bool, at: Time)
    ensures var out := Terminate(h, r, id, disposition, occurrence, wrote, at);
            if r.finalized then out == Err(AlreadyFinalized)
            else if r.recovered then out == Err(RecoveredSessionWrite)
            else if id !in r.open then out == Err(NotOpen)
            else if (r.open[id].decision == Blocked && disposition != Refused)
                    || (r.open[id].decision != Blocked && disposition == Refused) then
              out == Err(AuthorityTerminalMismatch)
            else if r.open[id].decision == Blocked && wrote then out == Err(BlockedDispatchClaim)
            else out.Ok? || out == Err(ReceiptInvalid)
  {
    hide Accepted;
  }

  /** What finalize and recovery refuse before anything is checked. */
  lemma EndRefusedFor(h: Hash, r: Recorder, order: seq<string>, readings: seq<Time>, at: Time, header: Header,
                      journal: seq<Receipt>, bundleExists: bool, torn: bool)
    requires |order| == |readings|
    ensures r.finalized ==> Finalize(h, r, order, readings, at) == (r, Err(AlreadyFinalized))
    ensures !r.finalized && !r.recovered && r.open != map[] ==>
              Finalize(h, r, order, readings, at) == (r, Err(OpenTransactionsRemain))
    ensures var out := Recover(h, header, journal, bundleExists, torn);
            if bundleExists then out == Err(AlreadyFinalized)
            else if torn then out == Err(JournalTorn)
            else if !Accepted(h, header, journal) then out == Err(RecoveryInvalid)
            else out.Ok? && out.value.header == header && out.value.receipts == journal
                 && out.value.recovered && !out.value.finalized
  {
    hide Accepted, CloseOpen, Verified;
  }

  // ----- what is accepted -----

  /** The finalization of a bundle describes its receipts. */
  predicate BundleHolds(h: Hash, b: Bundle) {
    var f := b.finalization.body;
    && f.session == b.header.body.session && f.headerSha == b.header.sha && f.receiptCount == |b.receipts|
    && f.chainHead == (if b.receipts == [] then GENESIS else b.receipts[|b.receipts| - 1].sha)
    && f.finalizedAt >= (if b.receipts == [] then b.header.body.createdAt else b.receipts[|b.receipts| - 1].body.observedAt)
    && f.counters == CountersFor(b.receipts)
    && b.finalization.sha == h(FinalizationContent(f))
    && (f.recoveredStatus <==> f.recoveryPerformed)
    && ((exists i :: 0 <= i < |b.receipts| && b.receipts[i].IsTerminal() && b.receipts[i].body.event.recovered) ==>
          f.recoveryPerformed)
  }

  lemma VerifiedHolds(h: Hash, b: Bundle)
    requires Verified(h, b)
    ensures BundleHolds(h, b)
  {
    hide Accepted, OpenAfter, CountersFor;
    assert !FinalRaises(h, b, FinalSessionMismatch) && !FinalRaises(h, b, FinalHeaderMismatch);
    assert !FinalRaises(h, b, FinalCountMismatch) && !FinalRaises(h, b, FinalHeadMismatch);
    assert !FinalRaises(h, b, FinalPrecedesReceipts) && !FinalRaises(h, b, FinalCountersMismatch);
    assert !FinalRaises(h, b, FinalDigestMismatch) && !FinalRaises(h, b, RecoveryFlagMismatch);
    assert !FinalRaises(h, b, TerminalStatusMismatch);
  }

  /** Every receipt of an accepted journal is linked, in time, and well-formed. */
  lemma AcceptedReceipt(h: Hash, header: Header, receipts: seq<Receipt>, i: nat)
    requires Accepted(h, header, receipts) && i < |receipts|
    ensures header.sha == h(HeaderContent(header.body)) && Linked(h, header, receipts, i)
    ensures (if i == 0 then header.body.createdAt else receipts[i - 1].body.observedAt) <= receipts[i].body.observedAt
    ensures var t := receipts[i].body.transaction;
            StableId(t.requestId) && StableId(t.operationId) && 1 <= t.attemptNumber && 0 <= t.requestBytes
    ensures receipts[i].IsAuthorization() ==>
              forall j :: 0 <= j < i && receipts[j].IsAuthorization() ==> receipts[j].Id() != receipts[i].Id()
  {
    hide TerminalRaises, OpenAfter, StableId;
    assert Clean(h, header, receipts, i);
    assert !Raises(h, header, receipts, i, SessionMismatch) && !Raises(h, header, receipts, i, HeaderMismatch);
    assert !Raises(h, header, receipts, i, SequenceGap) && !Raises(h, header, receipts, i, PredecessorMismatch);
    assert !Raises(h, header, receipts, i, DigestMismatch) && !Raises(h, header, receipts, i, TimestampRegressed);
    assert !Raises(h, header, receipts, i, RequestIdReused);
  }

  lemma NotRaised(h: Hash, header: Header, receipts: seq<Receipt>, i: nat, issue: Issue)
    requires Accepted(h, header, receipts) && i < |receipts| && receipts[i].IsTerminal()
    ensures !TerminalRaises(OpenAfter(receipts, i), receipts[i], issue)
  {
    hide ChainRaises, OpenAfter, WellFormed, TerminalRaises;
    assert Clean(h, header, receipts, i);
    assert !Raises(h, header, receipts, i, issue);
  }

  lemma AcceptedEvent(h: Hash, header: Header, receipts: seq<Receipt>, i: nat)
    requires Accepted(h, header, receipts) && i < |receipts| && receipts[i].IsTerminal()
    ensures Binds(OpenAfter(receipts, i), receipts[i])
    ensures EndingHolds(OpenAfter(receipts, i)[receipts[i].Id()], receipts[i])
  {
    hide Accepted, OpenAfter;
    NotRaised(h, header, receipts, i, BindingMissing);
    NotRaised(h, header, receipts, i, TransactionMismatch);
    NotRaised(h, header, receipts, i, AuthorityMismatch);
    NotRaised(h, header, receipts, i, BlockedWriteClaim);
    NotRaised(h, header, receipts, i, CompletedWithoutWrite);
    NotRaised(h, header, receipts, i, RecoveryShapeInvalid);
    NotRaised(h, header, receipts, i, SdkBindingInvalid);
  }

  /** What a terminal may say under its authorization. */
  predicate EndingHolds(auth: Receipt, t: Receipt)
    requires auth.IsAuthorization() && t.IsTerminal()
  {
    var (decision, end) := (auth.body.event.decision, t.body.event);
    && t.body.transaction == auth.body.transaction && end.authorizationSha == auth.sha
    && (decision == Allowed ==> end.disposition != Refused)
    && (decision == Blocked ==> end.disposition == Refused || end.disposition == InterruptedUnknown)
    && (decision == Blocked ==> end.writeCalled != Some(true))
    && (end.disposition == Completed || end.disposition == IdentityMismatch ==> end.writeCalled == Some(true))
    && (end.disposition == InterruptedUnknown <==> end.recovered)
    && (end.recovered ==> end.sdkOccurrence.None? && end.writeCalled.None?)
    && (!end.recovered ==> end.sdkOccurrence.Some? && end.writeCalled.Some?)
  }

  /** Every terminal of an accepted journal ends one authorization before it, which nothing ended before. */
  lemma AcceptedTerminal(h: Hash, header: Header, receipts: seq<Receipt>, i: nat) returns (j: nat)
    requires Accepted(h, header, receipts) && i < |receipts| && receipts[i].IsTerminal()
    ensures j < i && receipts[j].IsAuthorization() && receipts[j].Id() == receipts[i].Id()
    ensures EndingHolds(receipts[j], receipts[i])
    ensures forall k :: j < k < i ==> receipts[k].Id() != receipts[i].Id()
  {
    AcceptedEvent(h, header, receipts, i);
    hide EndingHolds;
    j := OpenSince(h, header, receipts, i, receipts[i].Id());
  }

  lemma {:induction false} OpenSince(h: Hash, header: Header, receipts: seq<Receipt>, k: nat, id: string) returns (j: nat)
    requires Accepted(h, header, receipts) && k <= |receipts| && id in OpenAfter(receipts, k)
    ensures j < k && receipts[j] == OpenAfter(receipts, k)[id] && receipts[j].IsAuthorization() && receipts[j].Id() == id
    ensures forall l :: j < l < k ==> receipts[l].Id() != id
    decreases k
  {
    hide Accepted, EndingHolds;
    var r := receipts[k - 1];
    if r.IsAuthorization() && r.Id() == id {
      j := k - 1;
    } else {
      if r.IsTerminal() { AcceptedEvent(h, header, receipts, k - 1); }
      j := OpenSince(h, header, receipts, k - 1, id);
    }
  }
}
