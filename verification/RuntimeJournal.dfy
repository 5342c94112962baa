/** The runtime evidence journal: receipt bodies and their shape rules, and the prefix check that
    every append, every recovery and every bundle verification runs (src/runtime-evidence.ts). */
module RuntimeJournal {
  import opened Common

  datatype TerminalStatus = StatusCompleted | StatusFailed | StatusCrashed | StatusCancelled

  datatype Content = Content(mediaType: string, byteLength: int, plaintextSha: Digest)

  datatype FileOperation = ReadFile | WriteFile | CreateFile | DeleteFile | RenameFile | StatFile

  datatype Effect = EffectSuccess | EffectFailed | EffectBlocked

  datatype ProcessOperation = Spawn | ProcessTerminal | SendSignal

  datatype ProcessOutcome = Running | ProcessCompleted | ProcessFailed | Signaled | ProcessBlocked

  datatype NetworkOperation = Connect | Send | Receive | Close

  datatype Delivery = RootOnlyFile | BrokerHandle

  datatype Body =
    | FileBody(
        fileOperation: FileOperation,
        path: Digest,
        target: Option<Digest>,
        outcome: Effect,
        before: Option<Content>,
        after: Option<Content>,
        bytes: int,
        reasons: seq<string>)
    | ProcessBody(
        processOperation: ProcessOperation,
        process: Digest,
        parent: Option<Digest>,
        command: Digest,
        processOutcome: ProcessOutcome,
        exitCode: Option<int>,
        signal: Option<string>,
        reasons: seq<string>)
    | NetworkBody(
        networkOperation: NetworkOperation,
        outbound: bool,
        protocol: string,
        endpoint: Digest,
        outcome: Effect,
        payload: Option<Content>,
        bytes: int,
        reasons: seq<string>)
    | CredentialScope(
        policySha: Digest,
        requested: seq<string>,
        resolved: seq<string>,
        slots: seq<Digest>,
        allowed: bool,
        delivery: Option<Delivery>,
        reasons: seq<string>)
    | SideEffect(
        effectKind: string,
        source: Digest,
        targetIdentity: Digest,
        request: Digest,
        response: Option<Digest>,
        stateBefore: Option<Digest>,
        stateAfter: Option<Digest>,
        outcome: Effect,
        reversible: bool,
        reasons: seq<string>)
    | TerminalBody(
        status: TerminalStatus,
        reasons: seq<string>,
        precedingCount: int,
        precedingHead: Digest,
        crashRecovery: bool)

  datatype ReceiptBody = ReceiptBody(
    session: string,
    headerSha: Digest,
    sequence: int,
    logicalTime: int,
    observedAt: Time,
    occurrence: string,
    previous: Digest,
    body: Body)

  datatype Receipt = Receipt(content: ReceiptBody, sha: Digest) {
    function Body(): Body { content.body }

    predicate IsTerminal() { content.body.TerminalBody? }

  }

  datatype HeaderBody = HeaderBody(
    session: string,
    createdAt: Time,
    runtimeIdentitySha: Digest,
    policySha: Digest,
    credentialPolicySha: Digest,
    declaredScopes: seq<string>)

  datatype Header = Header(body: HeaderBody, sha: Digest)

  datatype FinalizationBody = FinalizationBody(
    session: string,
    headerSha: Digest,
    finalizedAt: Time,
    receiptCount: int,
    chainHead: Digest,
    terminalSha: Digest,
    status: TerminalStatus)

  datatype Finalization = Finalization(body: FinalizationBody, sha: Digest)

  datatype StatementBody = StatementBody(
    session: string,
    headerSha: Digest,
    finalizationSha: Digest,
    receiptCount: int,
    chainHead: Digest)

  datatype Statement = Statement(body: StatementBody, sha: Digest)

  datatype AnchorBody = AnchorBody(
    storeId: string,
    sequence: int,
    anchoredAt: Time,
    previous: Digest,
    statement: Statement)

  datatype Anchor = Anchor(body: AnchorBody, sha: Digest)

  datatype Bundle = Bundle(header: Header, receipts: seq<Receipt>, finalization: Finalization, anchor: Anchor)

  datatype Hashed =
    | HeaderContent(header: HeaderBody)
    | ReceiptContent(receipt: ReceiptBody)
    | FinalizationContent(finalization: FinalizationBody)
    | StatementContent(statement: StatementBody)
    | AnchorContent(anchor: AnchorBody)

  type Hash = Hashed -> Digest

  // ----- shape rules -----

  predicate CanonicalIds(ids: seq<string>) {
    (forall i :: 0 <= i < |ids| ==> StableId(ids[i])) && StrictlyOrdered(ids)
  }

  predicate CanonicalDigests(digests: seq<Digest>) {
    forall i :: 1 <= i < |digests| ==> digests[i - 1] < digests[i]
  }

  predicate Count(n: int) { SafeInteger(n) && 0 <= n }

  predicate ContentShape(c: Option<Content>) {
    c.Some? ==> PrintableMediaType(c.value.mediaType) && Count(c.value.byteLength)
  }

  predicate SignalName(s: string) {
    |s| > 3 && s[..3] == "SIG" && forall i :: 3 <= i < |s| ==> 'A' <= s[i] <= 'Z' || '0' <= s[i] <= '9'
  }

  predicate Unfinished(o: ProcessOutcome) { o == Running || o == ProcessBlocked }

  predicate ProcessShape(operation: ProcessOperation, outcome: ProcessOutcome, exitCode: Option<int>, signal: Option<string>) {
    && (exitCode.Some? ==> SafeInteger(exitCode.value))
    && (signal.Some? ==> SignalName(signal.value))
    && (Unfinished(outcome) ==> exitCode.None? && signal.None?)
    && (outcome == ProcessCompleted ==> exitCode == Some(0) && signal.None?)
    && (outcome == ProcessFailed ==> exitCode.Some? && exitCode.value != 0 && signal.None?)
    && (outcome == Signaled ==> signal.Some? && exitCode.None?)
    && (operation == Spawn ==> Unfinished(outcome))
    && (operation == ProcessTerminal ==> !Unfinished(outcome))
  }

  predicate BodyShape(body: Body) {
    && CanonicalIds(body.reasons)
    && match body
       case FileBody(operation, _, target, outcome, before, after, bytes, _) =>
         && ContentShape(before) && ContentShape(after) && Count(bytes)
         && (operation == RenameFile <==> target.Some?)
         && (outcome == EffectBlocked ==> bytes == 0 && after == before)
         && (operation in {ReadFile, StatFile} ==> after == before)
       case ProcessBody(operation, _, _, _, outcome, exitCode, signal, _) =>
         ProcessShape(operation, outcome, exitCode, signal)
       case NetworkBody(operation, _, protocol, _, _, payload, bytes, _) =>
         && protocol in {"tcp", "tls", "http", "https", "grpc", "other"}
         && ContentShape(payload) && Count(bytes)
         && (operation in {Connect, Close} ==> payload.None? && bytes == 0)
         && (payload.Some? ==> bytes == payload.value.byteLength)
         && (payload.None? && operation in {Send, Receive} ==> bytes == 0)
       case CredentialScope(_, requested, resolved, slots, allowed, delivery, _) =>
         && CanonicalIds(requested) && CanonicalIds(resolved) && CanonicalDigests(slots)
         && (allowed ==> requested != [] && resolved != [] && slots != [] && delivery.Some?)
         && (!allowed ==> resolved == [] && slots == [] && delivery.None?)
       case SideEffect(kind, _, _, _, response, before, after, outcome, _, _) =>
         && kind in {"database_mutation", "message_dispatch", "external_tool", "change_control", "other"}
         && (outcome == EffectBlocked ==> response.None? && after == before)
       case TerminalBody(status, _, count, _, recovery) =>
         Count(count) && (recovery ==> status == StatusCrashed)
  }

  predicate HeaderShape(header: Header) {
    StableId(header.body.session) && CanonicalIds(header.body.declaredScopes)
  }

  predicate ReceiptShape(r: Receipt) {
    && StableId(r.content.session) && StableId(r.content.occurrence)
    && Count(r.content.sequence) && Count(r.content.logicalTime)
    && BodyShape(r.Body())
  }

  /** What parsing refuses before any check is made. */
  predicate PrefixShape(header: Header, receipts: seq<Receipt>) {
    HeaderShape(header) && forall i :: 0 <= i < |receipts| ==> ReceiptShape(receipts[i])
  }

  // ----- the prefix check -----

  datatype Issue =
    | SessionMismatch
    | HeaderMismatch
    | SequenceGap
    | PredecessorMismatch
    | DigestMismatch
    | TimestampRegressed
    | LogicalTimeRegressed
    | OccurrenceReused
    | PostTerminalWrite
    | CredentialPolicyMismatch
    | FalseCredentialScope
    | SourceMissing
    | TerminalCountMismatch
    | TerminalHeadMismatch
    | TerminalNotLast

  datatype Blocker =
    | SchemaInvalid
    | HeaderDigestMismatch
    | AtReceipt(issue: Issue, index: nat)
    | TerminalMissing

  function HeadOf(receipts: seq<Receipt>): Digest {
    if receipts == [] then GENESIS else receipts[|receipts| - 1].sha
  }

  function LastTime(header: Header, receipts: seq<Receipt>): Time {
    if receipts == [] then header.body.createdAt else receipts[|receipts| - 1].content.observedAt
  }

  function LastLogical(receipts: seq<Receipt>): int {
    if receipts == [] then -1 else receipts[|receipts| - 1].content.logicalTime
  }

  function Occurrences(receipts: seq<Receipt>): set<string> {
    set i | 0 <= i < |receipts| :: receipts[i].content.occurrence
  }

  function Digests(receipts: seq<Receipt>): set<Digest> {
    set i | 0 <= i < |receipts| :: receipts[i].sha
  }

  predicate HasTerminal(receipts: seq<Receipt>) {
    exists i :: 0 <= i < |receipts| && receipts[i].IsTerminal()
  }

  /** What the scan remembers of the receipts before the current one. */
  datatype Past = Past(
    head: Digest,
    time: Time,
    logical: int,
    occurrences: set<string>,
    digests: set<Digest>,
    terminated: bool)

  function PastOf(header: Header, before: seq<Receipt>): Past {
    Past(HeadOf(before), LastTime(header, before), LastLogical(before), Occurrences(before), Digests(before), HasTerminal(before))
  }

  predicate ResolvesOutside(requested: seq<string>, declared: seq<string>, resolved: seq<string>) {
    exists i :: 0 <= i < |resolved| && (resolved[i] !in requested || resolved[i] !in declared)
  }

  predicate ChainRaises(h: Hash, header: Header, past: Past, r: Receipt, index: nat, issue: Issue) {
    match issue
    case SessionMismatch => r.content.session != header.body.session
    case HeaderMismatch => r.content.headerSha != header.sha
    case SequenceGap => r.content.sequence != index
    case PredecessorMismatch => r.content.previous != past.head
    case DigestMismatch => r.sha != h(ReceiptContent(r.content))
    case TimestampRegressed => r.content.observedAt < past.time
    case LogicalTimeRegressed => r.content.logicalTime < past.logical
    case OccurrenceReused => r.content.occurrence in past.occurrences
    case PostTerminalWrite => past.terminated
    case _ => false
  }

  predicate BodyRaises(header: Header, past: Past, body: Body, index: nat, last: bool, issue: Issue) {
    match issue
    case CredentialPolicyMismatch => body.CredentialScope? && body.policySha != header.body.credentialPolicySha
    case FalseCredentialScope =>
      body.CredentialScope? && ResolvesOutside(body.requested, header.body.declaredScopes, body.resolved)
    case SourceMissing => body.SideEffect? && body.source !in past.digests
    case TerminalCountMismatch => body.TerminalBody? && body.precedingCount != index
    case TerminalHeadMismatch => body.TerminalBody? && body.precedingHead != past.head
    case TerminalNotLast => body.TerminalBody? && !last
    case _ => false
  }

  predicate RaisesAt(h: Hash, header: Header, past: Past, r: Receipt, index: nat, last: bool, issue: Issue) {
    ChainRaises(h, header, past, r, index, issue) || BodyRaises(header, past, r.Body(), index, last, issue)
  }

  predicate Raises(h: Hash, header: Header, receipts: seq<Receipt>, i: nat, issue: Issue)
    requires i < |receipts|
  {
    RaisesAt(h, header, PastOf(header, receipts[..i]), receipts[i], i, i == |receipts| - 1, issue)
  }

  predicate PrefixBlocks(h: Hash, header: Header, receipts: seq<Receipt>, requireTerminal: bool, b: Blocker) {
    if !PrefixShape(header, receipts) then b == SchemaInvalid
    else
      match b
      case SchemaInvalid => false
      case HeaderDigestMismatch => header.sha != h(HeaderContent(header.body))
      case AtReceipt(issue, i) => i < |receipts| && Raises(h, header, receipts, i, issue)
      case TerminalMissing => requireTerminal && !HasTerminal(receipts)
  }

  ghost predicate Clean(h: Hash, header: Header, receipts: seq<Receipt>, i: nat)
    requires i < |receipts|
  {
    forall issue :: !Raises(h, header, receipts, i, issue)
  }

  ghost predicate Accepted(h: Hash, header: Header, receipts: seq<Receipt>) {
    && PrefixShape(header, receipts)
    && header.sha == h(HeaderContent(header.body))
    && forall i {:trigger Clean(h, header, receipts, i)} :: 0 <= i < |receipts| ==> Clean(h, header, receipts, i)
  }

  lemma AcceptedMeansNoBlocker(h: Hash, header: Header, receipts: seq<Receipt>, requireTerminal: bool)
    ensures Accepted(h, header, receipts) && (requireTerminal ==> HasTerminal(receipts)) <==>
              forall b :: !PrefixBlocks(h, header, receipts, requireTerminal, b)
  {
    hide Raises, PrefixShape, HasTerminal;
    if Accepted(h, header, receipts) && (requireTerminal ==> HasTerminal(receipts)) {
      forall b
        ensures !PrefixBlocks(h, header, receipts, requireTerminal, b)
      {
        if b.AtReceipt? && b.index < |receipts| {
          assert Clean(h, header, receipts, b.index);
        }
      }
    }
    if forall b :: !PrefixBlocks(h, header, receipts, requireTerminal, b) {
      assert !PrefixBlocks(h, header, receipts, requireTerminal, SchemaInvalid);
      assert !PrefixBlocks(h, header, receipts, requireTerminal, HeaderDigestMismatch);
      assert !PrefixBlocks(h, header, receipts, requireTerminal, TerminalMissing);
      forall i | 0 <= i < |receipts|
        ensures Clean(h, header, receipts, i)
      {
        forall issue
          ensures !Raises(h, header, receipts, i, issue)
        {
          assert !PrefixBlocks(h, header, receipts, requireTerminal, AtReceipt(issue, i));
        }
      }
    }
  }

  lemma PastStep(header: Header, before: seq<Receipt>, r: Receipt)
    ensures var p := PastOf(header, before);
            PastOf(header, before + [r]) ==
              Past(r.sha, r.content.observedAt, r.content.logicalTime,
                   p.occurrences + {r.content.occurrence}, p.digests + {r.sha}, p.terminated || r.IsTerminal())
  {
    var grown := before + [r];
    assert grown[|before|] == r;
    assert forall i :: 0 <= i < |before| ==> grown[i] == before[i];
    assert Occurrences(grown) == Occurrences(before) + {r.content.occurrence};
    assert Digests(grown) == Digests(before) + {r.sha};
    if HasTerminal(before) {
      var i :| 0 <= i < |before| && before[i].IsTerminal();
      assert grown[i].IsTerminal();
    }
  }

  method ScanChain(h: Hash, header: Header, past: Past, r: Receipt, index: nat) returns (found: set<Issue>)
    ensures forall issue :: issue in found <==> ChainRaises(h, header, past, r, index, issue)
  {
    found := {};
    if r.content.session != header.body.session { found := found + {SessionMismatch}; }
    if r.content.headerSha != header.sha { found := found + {HeaderMismatch}; }
    if r.content.sequence != index { found := found + {SequenceGap}; }
    if r.content.previous != past.head { found := found + {PredecessorMismatch}; }
    if r.sha != h(ReceiptContent(r.content)) { found := found + {DigestMismatch}; }
    if r.content.observedAt < past.time { found := found + {TimestampRegressed}; }
    if r.content.logicalTime < past.logical { found := found + {LogicalTimeRegressed}; }
    if r.content.occurrence in past.occurrences { found := found + {OccurrenceReused}; }
    if past.terminated { found := found + {PostTerminalWrite}; }
  }

  method ScanBody(header: Header, past: Past, body: Body, index: nat, last: bool) returns (found: set<Issue>)
    ensures forall issue :: issue in found <==> BodyRaises(header, past, body, index, last, issue)
  {
    hide ResolvesOutside;
    found := {};
    match body {
      case CredentialScope(policySha, requested, resolved, _, _, _, _) =>
        if policySha != header.body.credentialPolicySha { found := found + {CredentialPolicyMismatch}; }
        if ResolvesOutside(requested, header.body.declaredScopes, resolved) { found := found + {FalseCredentialScope}; }
      case SideEffect(_, source, _, _, _, _, _, _, _, _) =>
        if source !in past.digests { found := found + {SourceMissing}; }
      case TerminalBody(_, _, count, precedingHead, _) =>
        if count != index { found := found + {TerminalCountMismatch}; }
        if precedingHead != past.head { found := found + {TerminalHeadMismatch}; }
        if !last { found := found + {TerminalNotLast}; }
      case _ =>
    }
  }

  /** verifyRuntimeEvidencePrefix: exactly the deserved blockers, and the status of the last terminal. */
  method VerifyPrefix(h: Hash, header: Header, receipts: seq<Receipt>, requireTerminal: bool)
    returns (blockers: set<Blocker>, head: Digest, status: Option<TerminalStatus>)
    ensures forall b :: b in blockers <==> PrefixBlocks(h, header, receipts, requireTerminal, b)
    ensures PrefixShape(header, receipts) ==> head == HeadOf(receipts)
    ensures blockers == {} ==> head == HeadOf(receipts)
    ensures blockers == {} ==> status == RecordedStatus(receipts)
  {
    hide PrefixShape, ChainRaises, BodyRaises, RecordedStatus;
    blockers, head, status := {}, GENESIS, None;
    if !PrefixShape(header, receipts) {
      return {SchemaInvalid}, GENESIS, None;
    }
    if header.sha != h(HeaderContent(header.body)) { blockers := {HeaderDigestMismatch}; }
    var past := Past(GENESIS, header.body.createdAt, -1, {}, {}, false);
    assert past == PastOf(header, receipts[..0]);
    assert receipts[..|receipts|] == receipts;
    for index := 0 to |receipts|
      invariant past == PastOf(header, receipts[..index])
      invariant status.Some? <==> past.terminated
      invariant forall b :: b in blockers <==>
        match b
        case SchemaInvalid => false
        case HeaderDigestMismatch => header.sha != h(HeaderContent(header.body))
        case AtReceipt(issue, i) => i < index && Raises(h, header, receipts, i, issue)
        case TerminalMissing => false
      invariant index > 0 && receipts[index - 1].IsTerminal() ==> status == Some(receipts[index - 1].Body().status)
    {
      var r := receipts[index];
      var chain := ScanChain(h, header, past, r, index);
      var shape := ScanBody(header, past, r.Body(), index, index == |receipts| - 1);
      blockers := blockers + set issue | issue in chain + shape :: AtReceipt(issue, index);
      if r.IsTerminal() { status := Some(r.Body().status); }
      PastStep(header, receipts[..index], r);
      hide PastOf;
      assert receipts[..index + 1] == receipts[..index] + [r];
      past := Past(r.sha, r.content.observedAt, r.content.logicalTime,
                   past.occurrences + {r.content.occurrence}, past.digests + {r.sha}, past.terminated || r.IsTerminal());
    }
    head := past.head;
    if requireTerminal && status.None? { blockers := blockers + {TerminalMissing}; }
    if blockers == {} {
      NoBlockerPastTerminal(h, header, receipts, requireTerminal, blockers);
      StatusIsLast(h, header, receipts, status);
    }
  }

  /** The status a recovered recorder takes from the journal: that of a last receipt that is terminal. */
  function RecordedStatus(receipts: seq<Receipt>): Option<TerminalStatus> {
    if receipts != [] && receipts[|receipts| - 1].IsTerminal() then Some(receipts[|receipts| - 1].Body().status) else None
  }

  lemma NoBlockerPastTerminal(h: Hash, header: Header, receipts: seq<Receipt>, requireTerminal: bool, blockers: set<Blocker>)
    requires blockers == {}
    requires forall b :: b in blockers <==> PrefixBlocks(h, header, receipts, requireTerminal, b)
    ensures Accepted(h, header, receipts)
  {
    hide PrefixBlocks, Accepted;
    forall b
      ensures !PrefixBlocks(h, header, receipts, requireTerminal, b)
    {
      assert b !in blockers;
    }
    AcceptedMeansNoBlocker(h, header, receipts, requireTerminal);
  }

  /** A terminal receipt of an accepted journal is its last one. */
  lemma TerminalIsLast(h: Hash, header: Header, receipts: seq<Receipt>, i: nat)
    requires Accepted(h, header, receipts) && i < |receipts| && receipts[i].IsTerminal()
    ensures i == |receipts| - 1
  {
    hide PrefixShape, PastOf;
    assert Clean(h, header, receipts, i);
    assert !Raises(h, header, receipts, i, TerminalNotLast);
  }

  lemma StatusIsLast(h: Hash, header: Header, receipts: seq<Receipt>, status: Option<TerminalStatus>)
    requires Accepted(h, header, receipts)
    requires status.Some? <==> HasTerminal(receipts)
    requires |receipts| > 0 && receipts[|receipts| - 1].IsTerminal() ==> status == Some(receipts[|receipts| - 1].Body().status)
    ensures status == RecordedStatus(receipts)
  {
    if HasTerminal(receipts) {
      var i :| 0 <= i < |receipts| && receipts[i].IsTerminal();
      TerminalIsLast(h, header, receipts, i);
    }
  }

  // ----- prefixes -----

  lemma CleanOfPrefix(h: Hash, header: Header, receipts: seq<Receipt>, n: nat, i: nat)
    requires i < n <= |receipts| && Clean(h, header, receipts, i)
    ensures Clean(h, header, receipts[..n], i)
  {
    hide RaisesAt, PastOf;
    assert receipts[..n][..i] == receipts[..i];
    forall issue
      ensures !Raises(h, header, receipts[..n], i, issue)
    {
      assert !Raises(h, header, receipts, i, issue);
      LastOnlyMatters(h, header, PastOf(header, receipts[..i]), receipts[i], i, i == |receipts| - 1, i == n - 1, issue);
    }
  }

  lemma LastOnlyMatters(h: Hash, header: Header, past: Past, r: Receipt, index: nat, last: bool, lastOfPrefix: bool, issue: Issue)
    requires last ==> lastOfPrefix
    requires !RaisesAt(h, header, past, r, index, last, issue)
    ensures !RaisesAt(h, header, past, r, index, lastOfPrefix, issue)
  {
    hide ResolvesOutside;
  }

  /** Cutting an accepted journal anywhere leaves an accepted journal. */
  lemma AcceptedIsPrefixClosed(h: Hash, header: Header, receipts: seq<Receipt>, n: nat)
    requires Accepted(h, header, receipts) && n <= |receipts|
    ensures Accepted(h, header, receipts[..n])
  {
    hide Clean, ReceiptShape, HeaderShape;
    forall i | 0 <= i < n
      ensures Clean(h, header, receipts[..n], i)
    {
      CleanOfPrefix(h, header, receipts, n, i);
    }
  }
}
