/** What the receipts of the HTTP journal hold, field by field: those each request leaves, and those of an
    accepted journal or a verified bundle, whoever wrote it (src/mcp-http-proxy.ts,
    src/mcp-http-evidence.ts). */
module HttpContents {
  import opened Common
  import opened HttpJournal
  import opened HttpRecorder
  import opened HttpProxy

  // ----- what is recorded -----

  /** Receipt i of a journal, linked to the one before and sealed. */
  predicate Linked(h: Hash, header: Header, receipts: seq<Receipt>, i: nat)
    requires i < |receipts|
  {
    var r := receipts[i];
    && r.body.session == header.body.session && r.body.headerSha == header.sha && r.body.sequence == i
    && r.body.previous == (if i == 0 then GENESIS else receipts[i - 1].sha)
    && r.sha == h(ReceiptContent(r.body))
  }

  /** The journal grew by one receipt of a request. */
  predicate Appended(h: Hash, r: Recorder, r': Recorder, id: string, evidence: Evidence, at: Time) {
    && |r'.receipts| == |r.receipts| + 1 && r.receipts <= r'.receipts
    && Linked(h, r.header, r'.receipts, |r.receipts|)
    && var body := r'.receipts[|r.receipts|].body;
       && body.requestId == id && body.request == evidence && body.observedAt == at
       && r' == r.(receipts := r'.receipts)
  }

  lemma AppendHolds(h: Hash, r: Recorder, id: string, evidence: Evidence, outcome: Outcome, at: Time)
    ensures var out := Append(h, r, id, evidence, outcome, at);
            out.Ok? ==>
              && Appended(h, r, out.value, id, evidence, at)
              && out.value.receipts[|r.receipts|].body.outcome == outcome
  {
    hide ChainAccepted, StableId;
  }

  predicate Mentions(m: string, part: string) {
    exists i, j :: 0 <= i <= j <= |m| && m[i..j] == part
  }

  lemma ContainsIsMention(m: string, part: string)
    ensures Contains(m, part) <==> Mentions(m, part)
  {
    if i :| 0 <= i <= |m| && part <= m[i..] {
      assert m[i..i + |part|] == m[i..][..|part|];
    }
    if i, j :| 0 <= i <= j <= |m| && m[i..j] == part {
      assert m[i..][..j - i] == m[i..j];
    }
  }

  predicate TargetFault(m: string) { Mentions(m, "url_invalid") || Mentions(m, "server_not_configured") }

  predicate BodyFault(m: string) {
    || Mentions(m, "request_too_large") || Mentions(m, "request_empty") || Mentions(m, "jsonrpc")
    || Mentions(m, "id_invalid") || Mentions(m, "method_invalid") || Mentions(m, "params_invalid")
    || Mentions(m, "tool_arguments_invalid") || Mentions(m, "tool_name_invalid") || Mentions(m, "keys_invalid")
  }

  predicate ProtocolFault(m: string) {
    || Mentions(m, "protocol_version") || Mentions(m, "method_header_mismatch") || Mentions(m, "name_header_mismatch")
    || Mentions(m, "request_meta_invalid") || Mentions(m, "meta_protocol")
  }

  /** The reason that a fault is refused for, by its message. */
  predicate FaultReason(f: Fault, reason: Reason) {
    var request := f.message == "guard_mcp_http_request_invalid";
    var target := !request && TargetFault(f.message);
    var body := !request && !target && (f.syntaxError || BodyFault(f.message));
    var protocol := !request && !target && !body && ProtocolFault(f.message);
    var rpcMethod := !request && !target && !body && !protocol && Mentions(f.message, "method_unsupported");
    && (reason == HttpRequestRefused <==> request) && (reason == TargetRefused <==> target)
    && (reason == BodyRefused <==> body) && (reason == ProtocolRefused <==> protocol)
    && (reason == RpcMethodRefused <==> rpcMethod)
    && (reason == ProxyInternalFailure <==> !request && !target && !body && !protocol && !rpcMethod)
  }

  lemma ClassifyHolds(f: Fault)
    ensures FaultReason(f, ClassifyRequestFailure(f))
  {
    hide Contains, Mentions;
    var m := f.message;
    ContainsIsMention(m, "url_invalid");
    ContainsIsMention(m, "server_not_configured");
    ContainsIsMention(m, "request_too_large");
    ContainsIsMention(m, "request_empty");
    ContainsIsMention(m, "jsonrpc");
    ContainsIsMention(m, "id_invalid");
    ContainsIsMention(m, "method_invalid");
    ContainsIsMention(m, "params_invalid");
    ContainsIsMention(m, "tool_arguments_invalid");
    ContainsIsMention(m, "tool_name_invalid");
    ContainsIsMention(m, "keys_invalid");
    ContainsIsMention(m, "protocol_version");
    ContainsIsMention(m, "method_header_mismatch");
    ContainsIsMention(m, "name_header_mismatch");
    ContainsIsMention(m, "request_meta_invalid");
    ContainsIsMention(m, "meta_protocol");
    ContainsIsMention(m, "method_unsupported");
  }

  /** A faulty request: an internal failure is a failed 500, every other fault a refused 400. */
  predicate FaultHolds(o: Outcome, f: Fault, kind: RequestKind, route: Option<Digest>, upstream: Option<bool>,
                       sdk: Option<Sdk>, occurrence: Option<Digest>)
  {
    && FaultReason(f, o.reason) && o.kind == kind && o.route == route && o.upstream == upstream
    && o.sdk == sdk && o.occurrence == occurrence
    && if o.reason == ProxyInternalFailure then o.disposition == Failed && o.status == 500
       else o.disposition == Refused && o.status == 400
  }

  predicate KindHolds(rpcMethod: string, kind: RequestKind) {
    && (kind == ServerDiscovery <==> rpcMethod == "server/discover")
    && (kind == ToolList <==> rpcMethod == "tools/list")
    && (kind == ToolCall <==> rpcMethod == "tools/call")
  }

  /** An answer of the adapter that is given back: a result, or a tool's own error. */
  predicate AnswerHolds(o: Outcome, route: Option<Digest>, r: AdapterResult, status: int) {
    && o.kind == ToolCall && o.route == route && o.status == status
    && o.sdk == Some(r.sdk) && o.occurrence == Some(r.occurrence) && o.upstream == Some(r.sdk != SdkBlocked)
    && (o.disposition == Completed <==> r.sdk == SdkCompleted) && (o.disposition == Refused <==> r.sdk == SdkBlocked)
    && (o.reason == ToolCallCompleted <==> r.sdk == SdkCompleted)
    && (o.reason == AdapterPolicyRefused <==> r.sdk == SdkBlocked)
    && (o.reason == AdapterToolFailure <==> r.sdk == SdkToolFailure)
    && (o.reason == AdapterProtocolFailed <==> r.sdk == SdkProtocolFailure)
    && (o.reason == AdapterIdentityMismatch <==> r.sdk == SdkIdentityMismatch)
  }

  /** A request that carries an origin, or no capability. */
  predicate ArrivalHolds(originPresent: bool, authorized: bool, o: Outcome) {
    if originPresent then o == Outcome(UnknownRequest, Refused, OriginNotAllowed, 403, None, Some(false), None, None)
    else !authorized && o == Outcome(UnknownRequest, Refused, AuthorizationRefused, 401, None, Some(false), None, None)
  }

  /** A request that ends before the adapter is asked. */
  predicate ParsedHolds(parsed: Parsed, o: Outcome) {
    match parsed
    case ReadFault(f) => FaultHolds(o, f, UnknownRequest, None, Some(false), None, None)
    case ParseFault(rpcMethod, route, f) =>
      KindHolds(rpcMethod, o.kind) && FaultHolds(o, f, o.kind, route, Some(false), None, None)
    case Discover(route) => o == Outcome(ServerDiscovery, Completed, ServerDiscoveryCompleted, 200, route, Some(false), None, None)
    case List(route) => o == Outcome(ToolList, Completed, ToolListCompleted, 200, route, Some(false), None, None)
    case UnroutedTool(route) => o == Outcome(ToolCall, Refused, ToolRouteNotAllowed, 403, route, Some(false), None, None)
    case RoutedTool(_) => false
  }

  /** A routed call, from what the adapter came to. */
  predicate AdapterHolds(route: Option<Digest>, end: AdapterEnd, o: Outcome) {
    match end
    case AdapterThrew(f) => FaultHolds(o, f, ToolCall, route, None, None, None)
    case AdapterReturned(r, nativeFault) =>
      if r.sdk != SdkCompleted && !r.hasResponse then AnswerHolds(o, route, r, if r.sdk == SdkBlocked then 403 else 502)
      else if nativeFault.None? then AnswerHolds(o, route, r, 200)
      else FaultHolds(o, nativeFault.value, ToolCall, route, Some(r.sdk != SdkBlocked), Some(r.sdk), Some(r.occurrence))
  }

  /** The one counter that a request moves. */
  predicate Moves(c: ProxyCounters, c': ProxyCounters, accepted: bool, blocked: bool, unauthorized: bool, malformed: bool) {
    && c'.acceptedTool == c.acceptedTool + (if accepted then 1 else 0)
    && c'.blockedTool == c.blockedTool + (if blocked then 1 else 0)
    && c'.unauthorized == c.unauthorized + (if unauthorized then 1 else 0)
    && c'.malformed == c.malformed + (if malformed then 1 else 0)
  }

  predicate ParsedMoves(c: ProxyCounters, c': ProxyCounters, parsed: Parsed) {
    Moves(c, c', false, parsed.UnroutedTool?, false, parsed.ReadFault? || parsed.ParseFault?)
  }

  predicate AdapterMoves(c: ProxyCounters, c': ProxyCounters, end: AdapterEnd) {
    var answered := end.AdapterReturned? && (end.result.sdk == SdkCompleted || end.result.hasResponse);
    var faulty := end.AdapterThrew? || (answered && end.nativeFault.Some?);
    Moves(c, c', answered && !faulty, !answered && !faulty, false, faulty)
  }

  lemma FaultOutcomeHolds(kind: RequestKind, route: Option<Digest>, f: Fault, started: bool, result: Option<AdapterResult>)
    ensures FaultHolds(FaultOutcome(kind, route, f, started, result), f, kind, route,
                       if result.Some? then Some(result.value.sdk != SdkBlocked) else if started then None else Some(false),
                       if result.Some? then Some(result.value.sdk) else None,
                       if result.Some? then Some(result.value.occurrence) else None)
  {
    hide FaultReason, ClassifyRequestFailure;
    ClassifyHolds(f);
  }

  lemma ParsedOutcomeHolds(parsed: Parsed)
    requires !parsed.RoutedTool?
    ensures ParsedHolds(parsed, ParsedOutcome(parsed))
  {
    hide FaultHolds, FaultOutcome;
    match parsed
    case ReadFault(f) => FaultOutcomeHolds(UnknownRequest, None, f, false, None);
    case ParseFault(rpcMethod, route, f) =>
      FaultOutcomeHolds(RequestKindFor(rpcMethod), route, f, false, None);
      FaultKeepsKind(RequestKindFor(rpcMethod), route, f);
    case _ =>
  }

  lemma FaultKeepsKind(kind: RequestKind, route: Option<Digest>, f: Fault)
    ensures FaultOutcome(kind, route, f, false, None).kind == kind
  {
    hide ClassifyRequestFailure;
  }

  lemma AdapterOutcomeHolds(route: Option<Digest>, end: AdapterEnd)
    ensures AdapterHolds(route, end, AdapterOutcome(route, end))
  {
    hide FaultHolds, FaultOutcome;
    match end
    case AdapterThrew(f) => FaultOutcomeHolds(ToolCall, route, f, true, None);
    case AdapterReturned(r, nativeFault) =>
      if nativeFault.Some? { FaultOutcomeHolds(ToolCall, route, nativeFault.value, true, Some(r)); }
  }

  /** What a turn of the event loop records, and the counter it moves with it: nothing, or the one receipt
      of the request it ends. */
  ghost predicate TurnHolds(h: Hash, p: Proxy, turn: Turn, p': Proxy) {
    var n := |p.recorder.receipts|;
    if p'.recorder.receipts == p.recorder.receipts then p'.recorder == p.recorder && p'.counters == p.counters
    else
      match turn
      case Arrive(slot, id, evidence, originPresent, authorized, at) =>
        && Appended(h, p.recorder, p'.recorder, id, evidence, at) && Moves(p.counters, p'.counters, false, false, true, false)
        && ArrivalHolds(originPresent, authorized, p'.recorder.receipts[n].body.outcome)
      case BodyRead(slot, evidence, parsed, at) =>
        && slot in p.handlers && p.handlers[slot].Reading?
        && Appended(h, p.recorder, p'.recorder, p.handlers[slot].id, evidence, at)
        && ParsedMoves(p.counters, p'.counters, parsed)
        && ParsedHolds(parsed, p'.recorder.receipts[n].body.outcome)
      case AdapterDone(slot, evidence, end, at) =>
        && slot in p.handlers && p.handlers[slot].Invoking?
        && Appended(h, p.recorder, p'.recorder, p.handlers[slot].id, evidence, at)
        && AdapterMoves(p.counters, p'.counters, end)
        && AdapterHolds(p.handlers[slot].route, end, p'.recorder.receipts[n].body.outcome)
  }

  lemma PersistHolds(h: Hash, p: Proxy, id: string, evidence: Evidence, outcome: Outcome, class_: Class, at: Time)
    ensures var p' := Persist(h, p, id, evidence, outcome, class_, at);
            || (p' == p)
            || (&& Appended(h, p.recorder, p'.recorder, id, evidence, at) && p'.counters == Increment(p.counters, class_)
                && p'.recorder.receipts[|p.recorder.receipts|].body.outcome == outcome
                && p'.recorder.receipts != p.recorder.receipts)
  {
    hide Append;
    AppendHolds(h, p.recorder, id, evidence, outcome, at);
  }

  lemma TurnRecords(h: Hash, p: Proxy, turn: Turn)
    ensures TurnHolds(h, p, turn, Next(h, p, turn))
  {
    hide Persist, Appended, ParsedOutcome, AdapterOutcome, ParsedHolds, AdapterHolds, AnswerHolds, FaultHolds;
    match turn
    case Arrive(slot, id, evidence, originPresent, authorized, at) =>
      PersistHolds(h, p, id, evidence, RefusalAtOnce(originPresent), UnauthorizedClass, at);
    case BodyRead(slot, evidence, parsed, at) =>
      if slot in p.handlers && !parsed.RoutedTool? {
        ParsedOutcomeHolds(parsed);
        PersistHolds(h, p.(handlers := p.handlers - {slot}), p.handlers[slot].id, evidence, ParsedOutcome(parsed), ParsedClass(parsed), at);
      }
    case AdapterDone(slot, evidence, end, at) =>
      if slot in p.handlers && p.handlers[slot].Invoking? {
        var route := p.handlers[slot].route;
        AdapterOutcomeHolds(route, end);
        PersistHolds(h, p.(handlers := p.handlers - {slot}), p.handlers[slot].id, evidence, AdapterOutcome(route, end), AdapterClass(end), at);
      }
  }

  /** The turn ends a request: an arrival without a right to be heard, a body that leads to no adapter, or the
      end of the adapter's call. */
  predicate Ends(p: Proxy, turn: Turn) {
    match turn
    case Arrive(slot, _, _, originPresent, authorized, _) => slot !in p.handlers && (originPresent || !authorized)
    case BodyRead(slot, _, parsed, _) => slot in p.handlers && p.handlers[slot].Reading? && !parsed.RoutedTool?
    case AdapterDone(slot, _, _, _) => slot in p.handlers && p.handlers[slot].Invoking?
  }

  /** The handlers after a turn. */
  predicate HandlersHold(p: Proxy, turn: Turn, handlers: map<nat, Handler>) {
    match turn
    case Arrive(slot, id, _, originPresent, authorized, _) =>
      handlers == if slot !in p.handlers && !originPresent && authorized then p.handlers[slot := Reading(id)] else p.handlers
    case BodyRead(slot, _, parsed, _) =>
      if slot in p.handlers && p.handlers[slot].Reading? then
        if parsed.RoutedTool? then handlers == p.handlers[slot := Invoking(p.handlers[slot].id, parsed.route)]
        else handlers == p.handlers - {slot}
      else handlers == p.handlers
    case AdapterDone(slot, _, _, _) =>
      handlers == if slot in p.handlers && p.handlers[slot].Invoking? then p.handlers - {slot} else p.handlers
  }

  function RequestOf(p: Proxy, turn: Turn): string
    requires Ends(p, turn)
  {
    if turn.Arrive? then turn.id else p.handlers[turn.slot].id
  }

  /** A request that ends is recorded exactly if its id is well-formed and new, its evidence passes, and the
      clock did not step back; no other turn records anything. */
  lemma EndingRecords(h: Hash, p: Proxy, turn: Turn)
    requires RecorderInv(h, p.recorder) && !p.recorder.finalized && !p.recorder.recovered && Promised(turn)
    ensures var p' := Next(h, p, turn);
            && HandlersHold(p, turn, p'.handlers)
            && (p'.recorder.receipts != p.recorder.receipts <==>
                  && Ends(p, turn) && StableId(RequestOf(p, turn))
                  && (forall i :: 0 <= i < |p.recorder.receipts| ==> p.recorder.receipts[i].body.requestId != RequestOf(p, turn))
                  && EvidenceHolds(turn.evidence)
                  && (p.recorder.receipts != [] ==> p.recorder.receipts[|p.recorder.receipts| - 1].body.observedAt <= turn.at))
  {
    RulesHold(turn.evidence, RefusalAtOnce(true));
    hide RecorderInv, StableId, EvidenceOk, EvidenceHolds, OutcomeHolds, Append, ParsedOutcome, AdapterOutcome, RefusalAtOnce, OutcomeOk, ClassOf;
    var someFault := Fault("", false);
    match turn
    case Arrive(slot, id, evidence, originPresent, authorized, at) =>
      HandlerOutcomesPass(ReadFault(someFault), None, AdapterThrew(someFault), originPresent);
      AppendDecides(h, p.recorder, id, evidence, RefusalAtOnce(originPresent), at);
    case BodyRead(slot, evidence, parsed, at) =>
      if slot in p.handlers && !parsed.RoutedTool? {
        HandlerOutcomesPass(parsed, None, AdapterThrew(someFault), false);
        AppendDecides(h, p.recorder, p.handlers[slot].id, evidence, ParsedOutcome(parsed), at);
      }
    case AdapterDone(slot, evidence, end, at) =>
      if slot in p.handlers && p.handlers[slot].Invoking? {
        HandlerOutcomesPass(ReadFault(someFault), p.handlers[slot].route, end, false);
        AppendDecides(h, p.recorder, p.handlers[slot].id, evidence, AdapterOutcome(p.handlers[slot].route, end), at);
      }
  }

  lemma AppendDecides(h: Hash, r: Recorder, id: string, evidence: Evidence, outcome: Outcome, at: Time)
    requires RecorderInv(h, r) && !r.finalized && !r.recovered && OutcomeOk(outcome)
    ensures Append(h, r, id, evidence, outcome, at).Ok? <==>
              && StableId(id) && (forall i :: 0 <= i < |r.receipts| ==> r.receipts[i].body.requestId != id)
              && EvidenceOk(evidence)
              && (r.receipts != [] ==> r.receipts[|r.receipts| - 1].body.observedAt <= at)
    ensures var out := Append(h, r, id, evidence, outcome, at); out.Err? || out.value.receipts != r.receipts
  {
    hide RecorderInv, StableId, EvidenceOk, OutcomeOk;
    AppendExactly(h, r, id, evidence, outcome, at);
    AppendHolds(h, r, id, evidence, outcome, at);
  }

  /** The bundle of a finalized session. */
  lemma FinalBundleHolds(h: Hash, r: Recorder, at: Time)
    ensures var (r', out) := Finalize(h, r, at);
            out.Ok? ==>
              && r' == r.(finalized := true) && out.value.header == r.header && out.value.receipts == r.receipts
              && BundleHolds(h, out.value)
              && var f := out.value.finalization.body;
                 f.recoverable && f.finalizedAt == at && (f.recoveryPerformed <==> r.recovered)
  {
    hide Verified, BundleHolds, CountersFor;
    var out := Finalize(h, r, at).1;
    if out.Ok? { VerifiedHolds(h, out.value); }
  }

  /** What append, finalize and recovery refuse. */
  lemma RefusedFor(h: Hash, r: Recorder, id: string, evidence: Evidence, outcome: Outcome, at: Time, header: Header,
                   journal: seq<Receipt>, bundleExists: bool, torn: bool)
    ensures var out := Append(h, r, id, evidence, outcome, at);
            if r.finalized then out == Err(PostFinalizationWrite)
            else if r.recovered then out == Err(RecoveredSessionWrite)
            else if !StableId(id) then out == Err(RequestIdRefused)
            else out.Ok? || out == Err(ReceiptInvalid)
    ensures var out := Finalize(h, r, at);
            if r.finalized then out == (r, Err(AlreadyFinalized)) else out.1.Ok? || out == (r, Err(BundleUnverified))
    ensures var out := Recover(h, header, journal, bundleExists, torn);
            if bundleExists then out == Err(AlreadyFinalized)
            else if torn || !StableId(header.body.session) || header.sha != h(HeaderContent(header.body))
                    || !ChainAccepted(h, header, journal) then out == Err(RecoveryInvalid)
            else if !header.body.recoverable then out == Err(RecoveryNotSupported)
            else out == Ok(Recorder(header, journal, false, true))
  {
    hide ChainAccepted, StableId, Verified;
  }

  // ----- what is accepted -----

  /** The rules for an outcome. */
  predicate OutcomeHolds(o: Outcome) {
    && 100 <= o.status <= 599 && (o.sdk.Some? <==> o.occurrence.Some?)
    && (o.sdk.Some? ==> o.kind == ToolCall && (o.upstream != Some(false) || o.sdk.value == SdkBlocked))
    && (o.disposition == Completed ==> o.status == 200)
    && (o.reason == AuthorizationRefused ==> o.status == 401) && (o.reason == OriginNotAllowed ==> o.status == 403)
  }

  predicate EvidenceHolds(e: Evidence) {
    && |e.lengths| == 5 && (forall i :: 0 <= i < 5 ==> 0 <= e.lengths[i] <= 9_007_199_254_740_991)
    && (e.bodySha.Some? <==> e.bodyObserved) && (e.bodyLength.Some? <==> e.bodyObserved)
    && (e.bodyObserved ==> 0 <= e.bodyLength.value <= 9_007_199_254_740_991)
  }

  /** The rules are exactly those that the journal checks. */
  lemma RulesHold(e: Evidence, o: Outcome)
    ensures EvidenceOk(e) <==> EvidenceHolds(e)
    ensures OutcomeOk(o) <==> OutcomeHolds(o)
  {
  }

  lemma NotRaised(h: Hash, header: Header, receipts: seq<Receipt>, i: nat, issue: Issue)
    requires ChainAccepted(h, header, receipts) && i < |receipts|
    ensures !RaisesAfter(h, header, receipts[..i], receipts[i], issue)
  {
    hide RaisesAfter;
    assert Clean(h, header, receipts[..i], receipts[i]);
  }

  /** Every receipt of an accepted journal is linked, in time, of its own request, and well-formed. */
  lemma AcceptedReceipt(h: Hash, header: Header, receipts: seq<Receipt>, i: nat)
    requires ChainAccepted(h, header, receipts) && i < |receipts|
    ensures Linked(h, header, receipts, i) && StableId(receipts[i].body.requestId)
    ensures i > 0 ==> receipts[i - 1].body.observedAt <= receipts[i].body.observedAt
    ensures forall j :: 0 <= j < i ==> receipts[j].body.requestId != receipts[i].body.requestId
    ensures EvidenceHolds(receipts[i].body.request) && OutcomeHolds(receipts[i].body.outcome)
  {
    hide ChainAccepted, StableId, OutcomeRaises, OutcomeHolds;
    NotRaised(h, header, receipts, i, SessionMismatch);
    NotRaised(h, header, receipts, i, HeaderMismatch);
    NotRaised(h, header, receipts, i, SequenceGap);
    NotRaised(h, header, receipts, i, PreviousMismatch);
    NotRaised(h, header, receipts, i, DigestMismatch);
    NotRaised(h, header, receipts, i, TimestampRegressed);
    NotRaised(h, header, receipts, i, RequestIdInvalid);
    NotRaised(h, header, receipts, i, RequestIdDuplicate);
    NotRaised(h, header, receipts, i, RequestRefused);
    AcceptedOutcome(h, header, receipts, i);
    forall j | 0 <= j < i
      ensures receipts[j].body.requestId in RequestIds(receipts[..i])
    {
      assert receipts[..i][j] == receipts[j];
    }
  }

  lemma AcceptedOutcome(h: Hash, header: Header, receipts: seq<Receipt>, i: nat)
    requires ChainAccepted(h, header, receipts) && i < |receipts|
    ensures OutcomeHolds(receipts[i].body.outcome)
  {
    hide ChainAccepted, StableId, RequestIds, EvidenceOk;
    NotRaised(h, header, receipts, i, OutcomeRefused(StatusInvalid));
    NotRaised(h, header, receipts, i, OutcomeRefused(SdkBindingIncomplete));
    NotRaised(h, header, receipts, i, OutcomeRefused(SdkBindingNonTool));
    NotRaised(h, header, receipts, i, OutcomeRefused(UpstreamSdkMismatch));
    NotRaised(h, header, receipts, i, OutcomeRefused(CompletedStatusInvalid));
    NotRaised(h, header, receipts, i, OutcomeRefused(AuthorizationStatusInvalid));
    NotRaised(h, header, receipts, i, OutcomeRefused(OriginStatusInvalid));
  }

  /** The finalization of a bundle describes its receipts. */
  predicate BundleHolds(h: Hash, b: Bundle) {
    var f := b.finalization.body;
    && b.header.sha == h(HeaderContent(b.header.body))
    && f.session == b.header.body.session && f.headerSha == b.header.sha && f.receiptCount == |b.receipts|
    && (f.recoverable <==> b.header.body.recoverable)
    && f.chainHead == (if b.receipts == [] then GENESIS else b.receipts[|b.receipts| - 1].sha)
    && b.header.body.createdAt <= f.finalizedAt
    && (b.receipts != [] ==> b.receipts[|b.receipts| - 1].body.observedAt <= f.finalizedAt)
    && (f.recoverable ==> (f.recoveredStatus <==> f.recoveryPerformed))
    && b.finalization.sha == h(FinalizationContent(f)) && CountersHold(b.receipts, f.counters)
  }

  function Where(receipts: seq<Receipt>, reasons: set<Reason>): set<int> {
    set i | 0 <= i < |receipts| && receipts[i].body.outcome.reason in reasons
  }

  function CallsEnded(receipts: seq<Receipt>, d: Disposition): set<nat> {
    set i: nat | i < |receipts| && receipts[i].body.outcome.kind == ToolCall && receipts[i].body.outcome.disposition == d
  }

  function MetadataServed(receipts: seq<Receipt>): set<int> {
    set i | 0 <= i < |receipts| && receipts[i].body.outcome.disposition == Completed
              && (receipts[i].body.outcome.kind == ServerDiscovery || receipts[i].body.outcome.kind == ToolList)
  }

  /** Each counter is a number of receipts. */
  predicate CountersHold(receipts: seq<Receipt>, c: Counters) {
    && c.total == |receipts|
    && c.metadata == |MetadataServed(receipts)|
    && c.acceptedTool == |CallsEnded(receipts, Completed)|
    && c.blockedTool == |CallsEnded(receipts, Refused)|
    && c.failedTool == |CallsEnded(receipts, Failed)|
    && c.unauthorized == |Where(receipts, {OriginNotAllowed, AuthorizationRefused})|
    && c.malformed == |Where(receipts, {BodyRefused, HttpRequestRefused, ProtocolRefused, ProxyInternalFailure,
                                        RpcMethodRefused, TargetRefused})|
  }

  lemma RecountHolds(receipts: seq<Receipt>)
    ensures CountersHold(receipts, CountersFor(receipts))
  {
    CountersCount(receipts);
    hide CountersFor;
    assert MetadataServed(receipts) == MetadataAt(receipts);
    assert Where(receipts, {OriginNotAllowed, AuthorizationRefused}) == UnauthorizedAt(receipts);
    assert Where(receipts, {BodyRefused, HttpRequestRefused, ProtocolRefused, ProxyInternalFailure, RpcMethodRefused, TargetRefused})
           == MalformedAt(receipts);
    assert forall d :: CallsEnded(receipts, d) == Calls(receipts, d);
  }

  lemma VerifiedHolds(h: Hash, b: Bundle)
    requires Verified(h, b)
    ensures BundleHolds(h, b)
  {
    hide ChainAccepted, CountersFor, CountersHold, CountersValid, StableId;
    RecountHolds(b.receipts);
    assert !FinalRaises(h, b, FinalSessionMismatch) && !FinalRaises(h, b, FinalHeaderMismatch);
    assert !FinalRaises(h, b, FinalizedBeforeCreation) && !FinalRaises(h, b, FinalSchemaMismatch);
    assert !FinalRaises(h, b, FinalizedBeforeLastReceipt) && !FinalRaises(h, b, RecoveryTerminalMismatch);
    assert !FinalRaises(h, b, FinalCountMismatch) && !FinalRaises(h, b, FinalHeadMismatch);
    assert !FinalRaises(h, b, CountersMismatch) && !FinalRaises(h, b, FinalDigestMismatch);
  }
}
