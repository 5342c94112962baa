/** The MCP HTTP access journal: outcomes, receipts, the chain check, counters, finalization and recovery
    (src/mcp-http-evidence.ts). */
module HttpJournal {
  import opened Common
  import HashChain

  datatype RequestKind = ServerDiscovery | ToolList | ToolCall | UnknownRequest

  datatype Disposition = Completed | Failed | Refused

  datatype Reason =
    | AdapterIdentityMismatch
    | AdapterPolicyRefused
    | AdapterProtocolFailed
    | AdapterToolFailure
    | AuthorizationRefused
    | BodyRefused
    | HttpRequestRefused
    | OriginNotAllowed
    | ProtocolRefused
    | ProxyInternalFailure
    | RpcMethodRefused
    | ServerDiscoveryCompleted
    | TargetRefused
    | ToolCallCompleted
    | ToolListCompleted
    | ToolRouteNotAllowed

  datatype Sdk = SdkBlocked | SdkCompleted | SdkIdentityMismatch | SdkProtocolFailure | SdkToolFailure

  datatype Outcome = Outcome(
    kind: RequestKind,
    disposition: Disposition,
    reason: Reason,
    status: int,
    route: Option<Digest>,
    upstream: Option<bool>,
    sdk: Option<Sdk>,
    occurrence: Option<Digest>)

  /** The lengths are those of method, target, header count, header names and header values. */
  datatype Evidence = Evidence(
    methodIsPost: bool,
    lengths: seq<int>,
    bodyObserved: bool,
    bodySha: Option<Digest>,
    bodyLength: Option<int>)

  datatype ReceiptBody = ReceiptBody(
    session: string,
    headerSha: Digest,
    sequence: int,
    requestId: string,
    observedAt: Time,
    previous: Digest,
    request: Evidence,
    outcome: Outcome)

  datatype Receipt = Receipt(body: ReceiptBody, sha: Digest)

  datatype HeaderBody = HeaderBody(
    recoverable: bool,
    session: string,
    createdAt: Time,
    configurationSha: Digest,
    policySha: Digest,
    workloadSha: Digest)

  datatype Header = Header(body: HeaderBody, sha: Digest)

  datatype Counters = Counters(
    total: nat,
    metadata: nat,
    acceptedTool: nat,
    blockedTool: nat,
    unauthorized: nat,
    malformed: nat,
    failedTool: nat)

  datatype FinalizationBody = FinalizationBody(
    recoverable: bool,
    session: string,
    headerSha: Digest,
    finalizedAt: Time,
    receiptCount: int,
    chainHead: Digest,
    counters: Counters,
    recoveredStatus: bool,
    recoveryPerformed: bool)

  datatype Finalization = Finalization(body: FinalizationBody, sha: Digest)

  datatype Bundle = Bundle(header: Header, receipts: seq<Receipt>, finalization: Finalization)

  datatype Hashed =
    | HeaderContent(header: HeaderBody)
    | ReceiptContent(receipt: ReceiptBody)
    | FinalizationContent(finalization: FinalizationBody)

  type Hash = Hashed -> Digest

  // ----- one receipt -----

  predicate Count(n: int) { SafeInteger(n) && 0 <= n }

  /** requestBlockers is empty. */
  predicate EvidenceOk(e: Evidence) {
    && |e.lengths| == 5 && (forall i :: 0 <= i < |e.lengths| ==> Count(e.lengths[i]))
    && if e.bodyObserved then e.bodySha.Some? && e.bodyLength.Some? && Count(e.bodyLength.value)
       else e.bodySha.None? && e.bodyLength.None?
  }

  datatype OutcomeIssue =
    | StatusInvalid
    | SdkBindingIncomplete
    | SdkBindingNonTool
    | UpstreamSdkMismatch
    | CompletedStatusInvalid
    | AuthorizationStatusInvalid
    | OriginStatusInvalid

  predicate OutcomeRaises(o: Outcome, issue: OutcomeIssue) {
    match issue
    case StatusInvalid => !(100 <= o.status <= 599)
    case SdkBindingIncomplete => o.sdk.None? != o.occurrence.None?
    case SdkBindingNonTool => o.sdk.Some? && o.kind != ToolCall
    case UpstreamSdkMismatch => o.upstream == Some(false) && o.sdk.Some? && o.sdk != Some(SdkBlocked)
    case CompletedStatusInvalid => o.disposition == Completed && o.status != 200
    case AuthorizationStatusInvalid => o.reason == AuthorizationRefused && o.status != 401
    case OriginStatusInvalid => o.reason == OriginNotAllowed && o.status != 403
  }

  predicate OutcomeOk(o: Outcome) {
    && 100 <= o.status <= 599
    && (o.sdk.Some? <==> o.occurrence.Some?)
    && (o.sdk.Some? ==> o.kind == ToolCall)
    && (o.upstream == Some(false) && o.sdk.Some? ==> o.sdk == Some(SdkBlocked))
    && (o.disposition == Completed ==> o.status == 200)
    && (o.reason == AuthorizationRefused ==> o.status == 401)
    && (o.reason == OriginNotAllowed ==> o.status == 403)
  }

  lemma OutcomeOkExactly(o: Outcome)
    ensures OutcomeOk(o) <==> forall issue :: !OutcomeRaises(o, issue)
  {
    if forall issue :: !OutcomeRaises(o, issue) {
      assert !OutcomeRaises(o, StatusInvalid) && !OutcomeRaises(o, SdkBindingIncomplete);
      assert !OutcomeRaises(o, SdkBindingNonTool) && !OutcomeRaises(o, UpstreamSdkMismatch);
      assert !OutcomeRaises(o, CompletedStatusInvalid) && !OutcomeRaises(o, AuthorizationStatusInvalid);
      assert !OutcomeRaises(o, OriginStatusInvalid);
    }
  }

  // ----- the chain -----

  datatype Issue =
    | SessionMismatch
    | HeaderMismatch
    | SequenceGap
    | RequestIdInvalid
    | RequestIdDuplicate
    | TimestampRegressed
    | PreviousMismatch
    | RequestRefused
    | OutcomeRefused(issue: OutcomeIssue)
    | DigestMismatch

  datatype Blocker = AtReceipt(issue: Issue, index: nat)

  function HeadOf(receipts: seq<Receipt>): Digest {
    if receipts == [] then GENESIS else receipts[|receipts| - 1].sha
  }

  function LastTime(receipts: seq<Receipt>): Option<Time> {
    if receipts == [] then None else Some(receipts[|receipts| - 1].body.observedAt)
  }

  predicate NotAfter(last: Option<Time>, at: Time) { last.Some? ==> last.value <= at }

  function RequestIds(receipts: seq<Receipt>): set<string> {
    set i | 0 <= i < |receipts| :: receipts[i].body.requestId
  }

  predicate RaisesAfter(h: Hash, header: Header, before: seq<Receipt>, r: Receipt, issue: Issue) {
    match issue
    case SessionMismatch => r.body.session != header.body.session
    case HeaderMismatch => r.body.headerSha != header.sha
    case SequenceGap => r.body.sequence != |before|
    case RequestIdInvalid => !StableId(r.body.requestId)
    case RequestIdDuplicate => r.body.requestId in RequestIds(before)
    case TimestampRegressed => !NotAfter(LastTime(before), r.body.observedAt)
    case PreviousMismatch => r.body.previous != HeadOf(before)
    case RequestRefused => !EvidenceOk(r.body.request)
    case OutcomeRefused(issue) => OutcomeRaises(r.body.outcome, issue)
    case DigestMismatch => r.sha != h(ReceiptContent(r.body))
  }

  predicate Raises(h: Hash, header: Header, receipts: seq<Receipt>, b: Blocker) {
    b.index < |receipts| && RaisesAfter(h, header, receipts[..b.index], receipts[b.index], b.issue)
  }

  ghost predicate Clean(h: Hash, header: Header, before: seq<Receipt>, r: Receipt) {
    forall issue :: !RaisesAfter(h, header, before, r, issue)
  }

  ghost predicate ChainAccepted(h: Hash, header: Header, receipts: seq<Receipt>) {
    forall i {:trigger receipts[i]} :: 0 <= i < |receipts| ==> Clean(h, header, receipts[..i], receipts[i])
  }

  predicate HeaderOk(h: Hash, header: Header) {
    StableId(header.body.session) && header.sha == h(HeaderContent(header.body))
  }

  method OutcomeBlockers(o: Outcome) returns (found: set<OutcomeIssue>)
    ensures forall issue :: issue in found <==> OutcomeRaises(o, issue)
  {
    found := {};
    if !(100 <= o.status <= 599) { found := found + {StatusInvalid}; }
    if o.sdk.None? != o.occurrence.None? { found := found + {SdkBindingIncomplete}; }
    if o.sdk.Some? && o.kind != ToolCall { found := found + {SdkBindingNonTool}; }
    if o.upstream == Some(false) && o.sdk.Some? && o.sdk != Some(SdkBlocked) { found := found + {UpstreamSdkMismatch}; }
    if o.disposition == Completed && o.status != 200 { found := found + {CompletedStatusInvalid}; }
    if o.reason == AuthorizationRefused && o.status != 401 { found := found + {AuthorizationStatusInvalid}; }
    if o.reason == OriginNotAllowed && o.status != 403 { found := found + {OriginStatusInvalid}; }
  }

  predicate LinkIssue(issue: Issue) {
    issue in {SessionMismatch, HeaderMismatch, SequenceGap, PreviousMismatch, DigestMismatch}
  }

  method LinkBlockers(h: Hash, header: Header, ghost before: seq<Receipt>, r: Receipt, index: nat, head: Digest)
    returns (found: set<Issue>)
    requires index == |before| && head == HeadOf(before)
    ensures forall issue :: issue in found <==> LinkIssue(issue) && RaisesAfter(h, header, before, r, issue)
  {
    hide OutcomeRaises, EvidenceOk, StableId, RequestIds, HeadOf, LastTime;
    found := {};
    if r.body.session != header.body.session { found := found + {SessionMismatch}; }
    if r.body.headerSha != header.sha { found := found + {HeaderMismatch}; }
    if r.body.sequence != index { found := found + {SequenceGap}; }
    if r.body.previous != head { found := found + {PreviousMismatch}; }
    if r.sha != h(ReceiptContent(r.body)) { found := found + {DigestMismatch}; }
  }

  method ReceiptBlockers(h: Hash, header: Header, ghost before: seq<Receipt>, r: Receipt, index: nat,
                         head: Digest, lastTime: Option<Time>, ids: set<string>) returns (found: set<Issue>)
    requires index == |before| && head == HeadOf(before) && lastTime == LastTime(before) && ids == RequestIds(before)
    ensures forall issue :: issue in found <==> RaisesAfter(h, header, before, r, issue)
  {
    hide OutcomeRaises, EvidenceOk, StableId, RequestIds, HeadOf, LastTime, NotAfter;
    found := LinkBlockers(h, header, before, r, index, head);
    var outcomes := OutcomeBlockers(r.body.outcome);
    found := found + set issue | issue in outcomes :: OutcomeRefused(issue);
    if !StableId(r.body.requestId) { found := found + {RequestIdInvalid}; }
    if r.body.requestId in ids { found := found + {RequestIdDuplicate}; }
    if !NotAfter(lastTime, r.body.observedAt) { found := found + {TimestampRegressed}; }
    if !EvidenceOk(r.body.request) { found := found + {RequestRefused}; }
  }

  /** receiptChainBlockers: exactly the deserved blockers. */
  method ReceiptChainBlockers(h: Hash, header: Header, receipts: seq<Receipt>) returns (blockers: set<Blocker>)
    ensures forall b :: b in blockers <==> Raises(h, header, receipts, b)
    ensures blockers == {} <==> ChainAccepted(h, header, receipts)
  {
    hide RaisesAfter;
    blockers := {};
    var head, lastTime: Option<Time>, ids: set<string> := GENESIS, None, {};
    assert receipts[..|receipts|] == receipts;
    for index := 0 to |receipts|
      invariant head == HeadOf(receipts[..index]) && lastTime == LastTime(receipts[..index])
      invariant ids == RequestIds(receipts[..index])
      invariant forall b :: b in blockers <==> b.index < index && Raises(h, header, receipts, b)
    {
      var r := receipts[index];
      var found := ReceiptBlockers(h, header, receipts[..index], r, index, head, lastTime, ids);
      blockers := blockers + set issue | issue in found :: AtReceipt(issue, index);
      assert receipts[..index + 1] == receipts[..index] + [r];
      IdsGrow(receipts[..index], r);
      hide RequestIds;
      ids := ids + {r.body.requestId};
      lastTime := Some(r.body.observedAt);
      head := r.sha;
    }
    NoBlockerMeansAccepted(h, header, receipts, blockers);
  }

  lemma IdsGrow(before: seq<Receipt>, r: Receipt)
    ensures RequestIds(before + [r]) == RequestIds(before) + {r.body.requestId}
  {
    var grown := before + [r];
    assert grown[|before|] == r;
    assert forall i :: 0 <= i < |before| ==> grown[i] == before[i];
  }

  lemma NoBlockerMeansAccepted(h: Hash, header: Header, receipts: seq<Receipt>, blockers: set<Blocker>)
    requires forall b :: b in blockers <==> Raises(h, header, receipts, b)
    ensures blockers == {} <==> ChainAccepted(h, header, receipts)
  {
    hide RaisesAfter;
    if blockers == {} {
      forall i | 0 <= i < |receipts|
        ensures Clean(h, header, receipts[..i], receipts[i])
      {
        forall issue
          ensures !RaisesAfter(h, header, receipts[..i], receipts[i], issue)
        {
          assert AtReceipt(issue, i) !in blockers;
        }
      }
    }
    if ChainAccepted(h, header, receipts) {
      forall b
        ensures b !in blockers
      {
        if b.index < |receipts| { assert Clean(h, header, receipts[..b.index], receipts[b.index]); }
      }
    }
  }

  lemma ChainIsPrefixClosed(h: Hash, header: Header, receipts: seq<Receipt>, n: nat)
    requires ChainAccepted(h, header, receipts) && n <= |receipts|
    ensures ChainAccepted(h, header, receipts[..n])
  {
    hide Clean;
    forall i | 0 <= i < n
      ensures Clean(h, header, receipts[..n][..i], receipts[..n][i])
    {
      assert receipts[..n][..i] == receipts[..i] && receipts[..n][i] == receipts[i];
    }
  }

  lemma ChainExtends(h: Hash, header: Header, receipts: seq<Receipt>, r: Receipt)
    requires ChainAccepted(h, header, receipts)
    ensures ChainAccepted(h, header, receipts + [r]) <==> Clean(h, header, receipts, r)
  {
    hide Clean;
    var grown := receipts + [r];
    assert grown[..|receipts|] == receipts && grown[|receipts|] == r;
    forall i | 0 <= i < |receipts|
      ensures Clean(h, header, grown[..i], grown[i])
    {
      assert grown[..i] == receipts[..i] && grown[i] == receipts[i];
    }
  }

  // ----- the head determines the journal -----

  function Bodies(receipts: seq<Receipt>): (bodies: seq<ReceiptBody>) {
    seq(|receipts|, i requires 0 <= i < |receipts| => receipts[i].body)
  }

  lemma ReceiptAt(h: Hash, header: Header, receipts: seq<Receipt>, i: nat)
    requires ChainAccepted(h, header, receipts) && i < |receipts|
    ensures receipts[i].body.sequence == i && receipts[i].sha == h(ReceiptContent(receipts[i].body))
    ensures receipts[i].body.previous == HeadOf(receipts[..i])
  {
    hide StableId, EvidenceOk, OutcomeRaises, RequestIds;
    assert Clean(h, header, receipts[..i], receipts[i]);
    assert !RaisesAfter(h, header, receipts[..i], receipts[i], SequenceGap);
    assert !RaisesAfter(h, header, receipts[..i], receipts[i], DigestMismatch);
    assert !RaisesAfter(h, header, receipts[..i], receipts[i], PreviousMismatch);
  }

  lemma IsChained(h: Hash, header: Header, receipts: seq<Receipt>)
    requires ChainAccepted(h, header, receipts)
    ensures var hash := (b: ReceiptBody) => h(ReceiptContent(b));
            var bodies := Bodies(receipts);
            && HashChain.Chained(hash, (b: ReceiptBody) => b.previous, GENESIS, bodies)
            && HashChain.Head(hash, GENESIS, bodies) == HeadOf(receipts)
            && (forall i :: 0 <= i < |bodies| ==> bodies[i].sequence == i)
            && (forall i :: 0 <= i < |bodies| ==> receipts[i] == Receipt(bodies[i], hash(bodies[i])))
  {
    var hash := (b: ReceiptBody) => h(ReceiptContent(b));
    var bodies := Bodies(receipts);
    hide ChainAccepted;
    forall i | 0 <= i < |bodies|
      ensures bodies[i].previous == HashChain.Head(hash, GENESIS, bodies[..i])
      ensures bodies[i].sequence == i && receipts[i] == Receipt(bodies[i], hash(bodies[i]))
    {
      ReceiptAt(h, header, receipts, i);
      if i > 0 { ReceiptAt(h, header, receipts, i - 1); }
    }
    if receipts != [] { ReceiptAt(h, header, receipts, |receipts| - 1); }
  }

  /** Two accepted HTTP journals with one head are one journal, unless one is empty and some receipt
      hashes to the sixty-four zeroes. */
  lemma HttpHeadDeterminesHistory(h: Hash, header: Header, other: Header, a: seq<Receipt>, b: seq<Receipt>)
    requires CollisionFree(h)
    requires ChainAccepted(h, header, a) && ChainAccepted(h, other, b)
    requires HeadOf(a) == HeadOf(b)
    ensures a == b || ((a == [] || b == []) && exists body :: h(ReceiptContent(body)) == GENESIS)
  {
    var hash := (r: ReceiptBody) => h(ReceiptContent(r));
    IsChained(h, header, a);
    IsChained(h, other, b);
    assert CollisionFree(hash) by {
      forall x, y | hash(x) == hash(y)
        ensures x == y
      {
        assert ReceiptContent(x) == ReceiptContent(y);
      }
    }
    hide ChainAccepted, CollisionFree, HashChain.Chained;
    HashChain.SameHeadNumbered(hash, (r: ReceiptBody) => r.previous, (r: ReceiptBody) => r.sequence, GENESIS, Bodies(a), Bodies(b));
    if Bodies(a) == Bodies(b) {
      assert a == b;
    } else {
      var body :| hash(body) == GENESIS;
      assert h(ReceiptContent(body)) == GENESIS;
    }
  }

  // ----- counters -----

  predicate Unauthorized(o: Outcome) { o.reason == OriginNotAllowed || o.reason == AuthorizationRefused }

  predicate Malformed(o: Outcome) {
    o.reason in {BodyRefused, HttpRequestRefused, ProtocolRefused, ProxyInternalFailure, RpcMethodRefused, TargetRefused}
  }

  predicate Metadata(o: Outcome) { o.disposition == Completed && (o.kind == ServerDiscovery || o.kind == ToolList) }

  function One(b: bool): nat { if b then 1 else 0 }

  function Tally(c: Counters, o: Outcome): Counters {
    Counters(c.total + 1,
             c.metadata + One(Metadata(o)),
             c.acceptedTool + One(o.kind == ToolCall && o.disposition == Completed),
             c.blockedTool + One(o.kind == ToolCall && o.disposition == Refused),
             c.unauthorized + One(Unauthorized(o)),
             c.malformed + One(Malformed(o)),
             c.failedTool + One(o.kind == ToolCall && o.disposition == Failed))
  }

  function CountersFor(receipts: seq<Receipt>): Counters {
    if receipts == [] then Counters(0, 0, 0, 0, 0, 0, 0)
    else Tally(CountersFor(receipts[..|receipts| - 1]), receipts[|receipts| - 1].body.outcome)
  }

  method TallyOne(given: Counters, o: Outcome) returns (c: Counters)
    ensures c == Tally(given, o)
  {
    c := given.(total := given.total + 1);
    if o.disposition == Completed && (o.kind == ServerDiscovery || o.kind == ToolList) { c := c.(metadata := c.metadata + 1); }
    if o.kind == ToolCall && o.disposition == Completed { c := c.(acceptedTool := c.acceptedTool + 1); }
    if o.kind == ToolCall && o.disposition == Refused { c := c.(blockedTool := c.blockedTool + 1); }
    if o.kind == ToolCall && o.disposition == Failed { c := c.(failedTool := c.failedTool + 1); }
    if o.reason == OriginNotAllowed || o.reason == AuthorizationRefused { c := c.(unauthorized := c.unauthorized + 1); }
    if Malformed(o) { c := c.(malformed := c.malformed + 1); }
  }

  /** countersFor as the loop it is. */
  method CountReceipts(receipts: seq<Receipt>) returns (c: Counters)
    ensures c == CountersFor(receipts) && c.total == |receipts|
  {
    hide Tally;
    c := Counters(0, 0, 0, 0, 0, 0, 0);
    assert receipts[..|receipts|] == receipts;
    for i := 0 to |receipts|
      invariant c == CountersFor(receipts[..i])
    {
      assert receipts[..i + 1][..i] == receipts[..i];
      c := TallyOne(c, receipts[i].body.outcome);
    }
    TotalIsLength(receipts);
  }

  lemma {:induction false} TotalIsLength(receipts: seq<Receipt>)
    ensures CountersFor(receipts).total == |receipts|
  {
    if receipts != [] { TotalIsLength(receipts[..|receipts| - 1]); }
  }

  // ----- what each counter counts -----

  predicate Call(o: Outcome, disposition: Disposition) {
    o.kind == ToolCall && o.disposition == disposition
  }

  predicate CallAt(receipts: seq<Receipt>, disposition: Disposition, i: nat)
    requires i < |receipts|
  {
    Call(receipts[i].body.outcome, disposition)
  }

  function Calls(receipts: seq<Receipt>, disposition: Disposition): set<nat> {
    set i: nat | i < |receipts| && CallAt(receipts, disposition, i)
  }

  function MetadataAt(receipts: seq<Receipt>): set<int> {
    set i | 0 <= i < |receipts| && Metadata(receipts[i].body.outcome)
  }

  function UnauthorizedAt(receipts: seq<Receipt>): set<int> {
    set i | 0 <= i < |receipts| && Unauthorized(receipts[i].body.outcome)
  }

  function MalformedAt(receipts: seq<Receipt>): set<int> {
    set i | 0 <= i < |receipts| && Malformed(receipts[i].body.outcome)
  }

  lemma CallAtStep(init: seq<Receipt>, r: Receipt, d: Disposition, i: nat)
    requires i <= |init|
    ensures CallAt(init + [r], d, i) <==> if i < |init| then CallAt(init, d, i) else Call(r.body.outcome, d)
  {
  }

  lemma CallsStep(init: seq<Receipt>, r: Receipt, d: Disposition)
    ensures |Calls(init + [r], d)| == |Calls(init, d)| + One(Call(r.body.outcome, d))
  {
    hide Call, CallAt;
    var grown := init + [r];
    forall i: nat | i <= |init|
      ensures CallAt(grown, d, i) <==> if i < |init| then CallAt(init, d, i) else Call(r.body.outcome, d)
    {
      CallAtStep(init, r, d, i);
    }
    assert Calls(grown, d) == Calls(init, d) + (if Call(r.body.outcome, d) then {|init|} else {});
  }

  lemma MetadataStep(init: seq<Receipt>, r: Receipt)
    ensures |MetadataAt(init + [r])| == |MetadataAt(init)| + One(Metadata(r.body.outcome))
  {
    hide Metadata;
    var grown := init + [r];
    assert grown[|init|] == r && forall i :: 0 <= i < |init| ==> grown[i] == init[i];
    assert MetadataAt(grown) == MetadataAt(init) + (if Metadata(r.body.outcome) then {|init|} else {});
  }

  lemma UnauthorizedStep(init: seq<Receipt>, r: Receipt)
    ensures |UnauthorizedAt(init + [r])| == |UnauthorizedAt(init)| + One(Unauthorized(r.body.outcome))
  {
    hide Unauthorized;
    var grown := init + [r];
    assert grown[|init|] == r && forall i :: 0 <= i < |init| ==> grown[i] == init[i];
    assert UnauthorizedAt(grown) == UnauthorizedAt(init) + (if Unauthorized(r.body.outcome) then {|init|} else {});
  }

  lemma MalformedStep(init: seq<Receipt>, r: Receipt)
    ensures |MalformedAt(init + [r])| == |MalformedAt(init)| + One(Malformed(r.body.outcome))
  {
    hide Malformed;
    var grown := init + [r];
    assert grown[|init|] == r && forall i :: 0 <= i < |init| ==> grown[i] == init[i];
    assert MalformedAt(grown) == MalformedAt(init) + (if Malformed(r.body.outcome) then {|init|} else {});
  }

  /** Each counter is the number of receipts of its kind. */
  lemma {:induction false} CountersCount(receipts: seq<Receipt>)
    ensures CountersFor(receipts) ==
              Counters(|receipts|, |MetadataAt(receipts)|, |Calls(receipts, Completed)|, |Calls(receipts, Refused)|,
                       |UnauthorizedAt(receipts)|, |MalformedAt(receipts)|, |Calls(receipts, Failed)|)
  {
    if receipts == [] {
      assert MetadataAt(receipts) == {} && UnauthorizedAt(receipts) == {} && MalformedAt(receipts) == {};
      assert forall d :: Calls(receipts, d) == {};
    } else {
      var init, r := receipts[..|receipts| - 1], receipts[|receipts| - 1];
      assert receipts == init + [r];
      CountersCount(init);
      MetadataStep(init, r);
      UnauthorizedStep(init, r);
      MalformedStep(init, r);
      CallsStep(init, r, Completed);
      CallsStep(init, r, Refused);
      CallsStep(init, r, Failed);
      hide Calls, MetadataAt, UnauthorizedAt, MalformedAt, Metadata, Unauthorized, Malformed;
    }
  }
}
