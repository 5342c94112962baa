/** The MCP stdio access journal: receipts, the prefix check every append and every recovery runs,
    and the open transactions a journal leaves (src/mcp-stdio-evidence.ts). */
module StdioJournal {
  import opened Common

  datatype Authority = Allowed | Blocked

  datatype Disposition =
    | Refused
    | Completed
    | ToolFailure
    | ProtocolFailure
    | IdentityMismatch
    | InterruptedUnknown

  datatype Transaction = Transaction(
    requestId: string,
    operationId: string,
    attemptNumber: int,
    routeSha: Digest,
    requestSha: Digest,
    requestBytes: int)

  /** Reason codes are functions of the decision or disposition and are not repeated here. */
  datatype Event =
    | Authorization(decision: Authority)
    | Terminal(
        authorizationSha: Digest,
        disposition: Disposition,
        writeCalled: Option<bool>,
        sdkOccurrence: Option<Digest>,
        recovered: bool)

  datatype ReceiptBody = ReceiptBody(
    session: string,
    headerSha: Digest,
    sequence: int,
    observedAt: Time,
    previous: Digest,
    transaction: Transaction,
    event: Event)

  datatype Receipt = Receipt(body: ReceiptBody, sha: Digest) {
    function Id(): string { body.transaction.requestId }

    predicate IsAuthorization() { body.event.Authorization? }

    predicate IsTerminal() { body.event.Terminal? }
  }

  datatype HeaderBody = HeaderBody(
    session: string,
    createdAt: Time,
    configurationSha: Digest,
    policySha: Digest,
    workloadSha: Digest,
    childLaunchSha: Digest)

  datatype Header = Header(body: HeaderBody, sha: Digest)

  datatype Counters = Counters(
    total: nat,
    allowed: nat,
    blocked: nat,
    completed: nat,
    failed: nat,
    interrupted: nat)

  datatype FinalizationBody = FinalizationBody(
    session: string,
    headerSha: Digest,
    finalizedAt: Time,
    receiptCount: int,
    chainHead: Digest,
    counters: Counters,
    recoveredStatus: bool,
    recoveryPerformed: bool)

  datatype Finalization = Finalization(body: FinalizationBody, sha: Digest)

  datatype Bundle = Bundle(header: Header, receipts: seq<Receipt>, finalization: Finalization)

  datatype Hashed =
    | HeaderContent(header: HeaderBody)
    | ReceiptContent(receipt: ReceiptBody)
    | FinalizationContent(finalization: FinalizationBody)

  type Hash = Hashed -> Digest

  /** The format checks of parseReceipt. */
  predicate WellFormed(r: Receipt) {
    && StableId(r.Id()) && StableId(r.body.transaction.operationId)
    && SafeInteger(r.body.sequence) && 0 <= r.body.sequence
    && SafeInteger(r.body.transaction.attemptNumber) && 1 <= r.body.transaction.attemptNumber
    && SafeInteger(r.body.transaction.requestBytes) && 0 <= r.body.transaction.requestBytes
  }

  function HeadOf(receipts: seq<Receipt>): Digest {
    if receipts == [] then GENESIS else receipts[|receipts| - 1].sha
  }

  function LastTime(header: Header, receipts: seq<Receipt>): Time {
    if receipts == [] then header.body.createdAt else receipts[|receipts| - 1].body.observedAt
  }

  // ----- the prefix check -----

  datatype Issue =
    | SessionMismatch
    | HeaderMismatch
    | SequenceGap
    | PredecessorMismatch
    | DigestMismatch
    | TimestampRegressed
    | RequestIdReused
    | BindingMissing
    | TransactionMismatch
    | AuthorityMismatch
    | BlockedWriteClaim
    | CompletedWithoutWrite
    | RecoveryShapeInvalid
    | SdkBindingInvalid

  datatype Blocker =
    | HeaderDigestMismatch
    | SchemaInvalid(index: nat)
    | AtReceipt(issue: Issue, index: nat)
    | OpenTransactions

  predicate Binds(open: map<string, Receipt>, t: Receipt) {
    t.IsTerminal() && t.Id() in open && t.body.event.authorizationSha == open[t.Id()].sha
  }

  /** The authorizations still open after the first k receipts, as the verifier tracks them. */
  function OpenAfter(receipts: seq<Receipt>, k: nat): (open: map<string, Receipt>)
    requires k <= |receipts|
    ensures forall id :: id in open ==> open[id].IsAuthorization() && open[id].Id() == id && open[id] in receipts[..k]
  {
    if k == 0 then map[]
    else
      var before := OpenAfter(receipts, k - 1);
      var r := receipts[k - 1];
      assert receipts[..k] == receipts[..k - 1] + [r];
      if r.IsAuthorization() then before[r.Id() := r]
      else if Binds(before, r) then before - {r.Id()}
      else before
  }

  predicate Authorized(receipts: seq<Receipt>, k: nat, id: string)
    requires k <= |receipts|
  {
    exists i :: 0 <= i < k && receipts[i].IsAuthorization() && receipts[i].Id() == id
  }

  predicate ChainRaises(h: Hash, header: Header, receipts: seq<Receipt>, i: nat, issue: Issue)
    requires i < |receipts|
  {
    var r := receipts[i];
    match issue
    case SessionMismatch => r.body.session != header.body.session
    case HeaderMismatch => r.body.headerSha != header.sha
    case SequenceGap => r.body.sequence != i
    case PredecessorMismatch => r.body.previous != HeadOf(receipts[..i])
    case DigestMismatch => r.sha != h(ReceiptContent(r.body))
    case TimestampRegressed => r.body.observedAt < LastTime(header, receipts[..i])
    case _ => false
  }

  predicate BoundRaises(auth: Receipt, t: Receipt, issue: Issue)
    requires auth.IsAuthorization() && t.IsTerminal()
  {
    var decision, end := auth.body.event.decision, t.body.event;
    match issue
    case TransactionMismatch => auth.body.transaction != t.body.transaction
    case AuthorityMismatch =>
      || (decision == Allowed && end.disposition == Refused)
      || (decision == Blocked && end.disposition !in {Refused, InterruptedUnknown})
    case BlockedWriteClaim => decision == Blocked && end.writeCalled == Some(true)
    case CompletedWithoutWrite =>
      end.disposition in {Completed, IdentityMismatch} && end.writeCalled != Some(true)
    case _ => false
  }

  predicate TerminalRaises(open: map<string, Receipt>, t: Receipt, issue: Issue)
    requires t.IsTerminal()
    requires forall id :: id in open ==> open[id].IsAuthorization()
  {
    var end := t.body.event;
    match issue
    case BindingMissing => !Binds(open, t)
    case RecoveryShapeInvalid =>
      && end.disposition == InterruptedUnknown
      && (!end.recovered || end.sdkOccurrence.Some? || end.writeCalled.Some?)
    case SdkBindingInvalid =>
      && end.disposition != InterruptedUnknown
      && (end.recovered || end.sdkOccurrence.None? || end.writeCalled.None?)
    case _ => Binds(open, t) && BoundRaises(open[t.Id()], t, issue)
  }

  predicate EventRaises(receipts: seq<Receipt>, i: nat, issue: Issue)
    requires i < |receipts|
  {
    if receipts[i].IsAuthorization() then issue == RequestIdReused && Authorized(receipts, i, receipts[i].Id())
    else TerminalRaises(OpenAfter(receipts, i), receipts[i], issue)
  }

  predicate Raises(h: Hash, header: Header, receipts: seq<Receipt>, i: nat, issue: Issue)
    requires i < |receipts|
  {
    ChainRaises(h, header, receipts, i, issue) || EventRaises(receipts, i, issue)
  }

  predicate PrefixBlocks(h: Hash, header: Header, receipts: seq<Receipt>, requireClosed: bool, b: Blocker) {
    match b
    case HeaderDigestMismatch => header.sha != h(HeaderContent(header.body))
    case SchemaInvalid(i) => i < |receipts| && !WellFormed(receipts[i])
    case AtReceipt(issue, i) => i < |receipts| && Raises(h, header, receipts, i, issue)
    case OpenTransactions => requireClosed && OpenAfter(receipts, |receipts|) != map[]
  }

  ghost predicate Clean(h: Hash, header: Header, receipts: seq<Receipt>, i: nat)
    requires i < |receipts|
  {
    WellFormed(receipts[i]) && forall issue :: !Raises(h, header, receipts, i, issue)
  }

  /** No blocker: what an accepted journal prefix is. */
  ghost predicate Accepted(h: Hash, header: Header, receipts: seq<Receipt>) {
    && header.sha == h(HeaderContent(header.body))
    && forall i {:trigger Clean(h, header, receipts, i)} :: 0 <= i < |receipts| ==> Clean(h, header, receipts, i)
  }

  lemma AcceptedMeansNoBlocker(h: Hash, header: Header, receipts: seq<Receipt>)
    ensures Accepted(h, header, receipts) <==> forall b :: !PrefixBlocks(h, header, receipts, false, b)
  {
    hide Raises, WellFormed;
    if Accepted(h, header, receipts) {
      forall b
        ensures !PrefixBlocks(h, header, receipts, false, b)
      {
        if (b.SchemaInvalid? || b.AtReceipt?) && b.index < |receipts| {
          assert Clean(h, header, receipts, b.index);
        }
      }
    }
    if forall b :: !PrefixBlocks(h, header, receipts, false, b) {
      assert !PrefixBlocks(h, header, receipts, false, HeaderDigestMismatch);
      forall i | 0 <= i < |receipts|
        ensures Clean(h, header, receipts, i)
      {
        assert !PrefixBlocks(h, header, receipts, false, SchemaInvalid(i));
        forall issue
          ensures !Raises(h, header, receipts, i, issue)
        {
          assert !PrefixBlocks(h, header, receipts, false, AtReceipt(issue, i));
        }
      }
    }
  }

  method ScanReceipt(h: Hash, header: Header, receipts: seq<Receipt>, index: nat, head: Digest, lastTime: Time,
                     open: map<string, Receipt>, seen: set<string>)
    returns (found: set<Issue>)
    requires index < |receipts|
    requires head == HeadOf(receipts[..index]) && lastTime == LastTime(header, receipts[..index])
    requires open == OpenAfter(receipts, index)
    requires receipts[index].Id() in seen <==> Authorized(receipts, index, receipts[index].Id())
    ensures forall issue :: issue in found <==> Raises(h, header, receipts, index, issue)
  {
    hide OpenAfter, Authorized, TerminalRaises, HeadOf, LastTime;
    found := {};
    var r := receipts[index];
    if r.body.session != header.body.session { found := found + {SessionMismatch}; }
    if r.body.headerSha != header.sha { found := found + {HeaderMismatch}; }
    if r.body.sequence != index { found := found + {SequenceGap}; }
    if r.body.previous != head { found := found + {PredecessorMismatch}; }
    if r.sha != h(ReceiptContent(r.body)) { found := found + {DigestMismatch}; }
    if r.body.observedAt < lastTime { found := found + {TimestampRegressed}; }
    assert forall issue :: issue in found <==> ChainRaises(h, header, receipts, index, issue);
    hide ChainRaises;
    if r.IsAuthorization() {
      if r.Id() in seen { found := found + {RequestIdReused}; }
    } else {
      var raised := set issue: Issue | TerminalRaises(open, r, issue);
      found := found + raised;
    }
  }

  lemma AuthorizedStep(receipts: seq<Receipt>, k: nat, id: string)
    requires k < |receipts|
    ensures Authorized(receipts, k + 1, id) <==>
              Authorized(receipts, k, id) || (receipts[k].IsAuthorization() && receipts[k].Id() == id)
  {
  }

  /** prefixBlockers: exactly the deserved blockers of a header and a receipt list. */
  method PrefixBlockers(h: Hash, header: Header, receipts: seq<Receipt>, requireClosed: bool)
    returns (blockers: set<Blocker>)
    ensures forall b :: b in blockers <==> PrefixBlocks(h, header, receipts, requireClosed, b)
  {
    hide Raises, WellFormed;
    blockers := {};
    if header.sha != h(HeaderContent(header.body)) { blockers := {HeaderDigestMismatch}; }
    var head, lastTime := GENESIS, header.body.createdAt;
    var open: map<string, Receipt> := map[];
    var seen: set<string> := {};
    assert receipts[..|receipts|] == receipts;
    for index := 0 to |receipts|
      invariant head == HeadOf(receipts[..index]) && lastTime == LastTime(header, receipts[..index])
      invariant open == OpenAfter(receipts, index)
      invariant forall id :: id in seen <==> Authorized(receipts, index, id)
      invariant forall b :: b in blockers <==>
        match b
        case SchemaInvalid(i) => i < index && !WellFormed(receipts[i])
        case AtReceipt(issue, i) => i < index && Raises(h, header, receipts, i, issue)
        case HeaderDigestMismatch => PrefixBlocks(h, header, receipts, requireClosed, b)
        case OpenTransactions => false
    {
      var r := receipts[index];
      if !WellFormed(r) { blockers := blockers + {SchemaInvalid(index)}; }
      var found := ScanReceipt(h, header, receipts, index, head, lastTime, open, seen);
      blockers := blockers + set issue | issue in found :: AtReceipt(issue, index);
      forall id
        ensures Authorized(receipts, index + 1, id) <==>
                  Authorized(receipts, index, id) || (r.IsAuthorization() && r.Id() == id)
      {
        AuthorizedStep(receipts, index, id);
      }
      if r.IsAuthorization() {
        seen := seen + {r.Id()};
        open := open[r.Id() := r];
      } else if Binds(open, r) {
        open := open - {r.Id()};
      }
      assert receipts[..index + 1] == receipts[..index] + [r];
      head := r.sha;
      lastTime := r.body.observedAt;
    }
    if requireClosed && open != map[] { blockers := blockers + {OpenTransactions}; }
  }

  // ----- what depends only on a prefix -----

  lemma {:induction false} OpenOfPrefix(receipts: seq<Receipt>, n: nat, k: nat)
    requires k <= n <= |receipts|
    ensures OpenAfter(receipts[..n], k) == OpenAfter(receipts, k)
  {
    if k > 0 {
      OpenOfPrefix(receipts, n, k - 1);
    }
  }

  lemma CleanOfPrefix(h: Hash, header: Header, receipts: seq<Receipt>, n: nat, i: nat)
    requires i < n <= |receipts|
    ensures Clean(h, header, receipts[..n], i) <==> Clean(h, header, receipts, i)
  {
    var prefix := receipts[..n];
    assert prefix[..i] == receipts[..i];
    OpenOfPrefix(receipts, n, i);
    assert Authorized(prefix, i, receipts[i].Id()) <==> Authorized(receipts, i, receipts[i].Id()) by {
      if Authorized(receipts, i, receipts[i].Id()) {
        var j :| 0 <= j < i && receipts[j].IsAuthorization() && receipts[j].Id() == receipts[i].Id();
        assert prefix[j] == receipts[j];
      }
    }
    forall issue
      ensures Raises(h, header, prefix, i, issue) <==> Raises(h, header, receipts, i, issue)
    {
      hide OpenAfter, Authorized, TerminalRaises;
    }
    hide Raises, WellFormed;
  }

  /** Cutting an accepted journal anywhere leaves an accepted journal. */
  lemma AcceptedIsPrefixClosed(h: Hash, header: Header, receipts: seq<Receipt>, n: nat)
    requires Accepted(h, header, receipts) && n <= |receipts|
    ensures Accepted(h, header, receipts[..n])
  {
    hide Clean;
    forall i | 0 <= i < n
      ensures Clean(h, header, receipts[..n], i)
    {
      CleanOfPrefix(h, header, receipts, n, i);
    }
  }

  /** An accepted journal extended by one receipt is accepted exactly if that receipt is clean. */
  lemma AcceptedExtends(h: Hash, header: Header, receipts: seq<Receipt>, r: Receipt)
    requires Accepted(h, header, receipts)
    ensures Accepted(h, header, receipts + [r]) <==> Clean(h, header, receipts + [r], |receipts|)
  {
    hide Clean;
    var grown := receipts + [r];
    assert grown[..|receipts|] == receipts;
    forall i | 0 <= i < |receipts|
      ensures Clean(h, header, grown, i)
    {
      CleanOfPrefix(h, header, grown, |receipts|, i);
    }
  }

  lemma OpenStep(receipts: seq<Receipt>, r: Receipt)
    ensures var before := OpenAfter(receipts, |receipts|);
            OpenAfter(receipts + [r], |receipts| + 1) ==
              if r.IsAuthorization() then before[r.Id() := r]
              else if Binds(before, r) then before - {r.Id()}
              else before
  {
    var grown := receipts + [r];
    assert grown[..|receipts|] == receipts;
    OpenOfPrefix(grown, |receipts|, |receipts|);
  }

  // ----- the open transactions a recovery finds -----

  datatype OpenTransaction = OpenTransaction(transaction: Transaction, authorizationSha: Digest, decision: Authority)

  function AsOpen(auth: Receipt): OpenTransaction
    requires auth.IsAuthorization()
  {
    OpenTransaction(auth.body.transaction, auth.sha, auth.body.event.decision)
  }

  function OpenView(receipts: seq<Receipt>): map<string, OpenTransaction> {
    var open := OpenAfter(receipts, |receipts|);
    map id | id in open :: AsOpen(open[id])
  }

  lemma OpenViewStep(receipts: seq<Receipt>, r: Receipt)
    ensures OpenView(receipts + [r]) ==
              if r.IsAuthorization() then OpenView(receipts)[r.Id() := AsOpen(r)]
              else if Binds(OpenAfter(receipts, |receipts|), r) then OpenView(receipts) - {r.Id()}
              else OpenView(receipts)
  {
    OpenStep(receipts, r);
    hide OpenAfter;
  }

  /** openTransactions deletes on every terminal, the prefix check only on a bound one: on an
      accepted journal they agree. */
  method FindOpen(h: Hash, header: Header, receipts: seq<Receipt>) returns (open: map<string, OpenTransaction>)
    ensures Accepted(h, header, receipts) ==> open == OpenView(receipts)
  {
    hide Accepted, OpenAfter, Binds;
    open := map[];
    assert OpenView([]) == map[];
    assert receipts[..|receipts|] == receipts;
    for i := 0 to |receipts|
      invariant Accepted(h, header, receipts) ==> open == OpenView(receipts[..i])
    {
      var r := receipts[i];
      assert receipts[..i + 1] == receipts[..i] + [r];
      OpenViewStep(receipts[..i], r);
      hide OpenView;
      if Accepted(h, header, receipts) {
        TerminalIsBound(h, header, receipts, i);
        OpenOfPrefix(receipts, i, i);
      }
      if r.IsAuthorization() {
        open := open[r.Id() := AsOpen(r)];
      } else {
        open := open - {r.Id()};
      }
    }
  }

  lemma TerminalIsBound(h: Hash, header: Header, receipts: seq<Receipt>, i: nat)
    requires Accepted(h, header, receipts) && i < |receipts|
    ensures receipts[i].IsTerminal() ==> Binds(OpenAfter(receipts, i), receipts[i])
  {
    hide OpenAfter, WellFormed;
    assert Clean(h, header, receipts, i);
    assert !Raises(h, header, receipts, i, BindingMissing);
  }
}
