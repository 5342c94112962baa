/** The MCP HTTP proxy's request handlers, interleaved at their awaits over shared counters and one access
    journal, and the accounts they leave (src/mcp-http-proxy.ts). */
module HttpProxy {
  import opened Common
  import opened HttpJournal
  import opened HttpRecorder

  datatype ProxyCounters = ProxyCounters(acceptedTool: nat, blockedTool: nat, unauthorized: nat, malformed: nat)

  /** What the adapter returns: a response only with a completed call or a tool's own error. */
  datatype AdapterResult = AdapterResult(sdk: Sdk, occurrence: Digest, hasResponse: bool)

  predicate AdapterPromise(r: AdapterResult) {
    && (r.sdk == SdkCompleted ==> r.hasResponse)
    && (r.hasResponse ==> r.sdk == SdkCompleted || r.sdk == SdkToolFailure)
  }

  function AccessOutcome(kind: RequestKind, disposition: Disposition, reason: Reason, status: int, route: Option<Digest>,
                         upstream: Option<bool>, result: Option<AdapterResult>): Outcome
  {
    Outcome(kind, disposition, reason, status, route, upstream,
            if result.Some? then Some(result.value.sdk) else None,
            if result.Some? then Some(result.value.occurrence) else None)
  }

  function AccessOutcomeForAdapter(kind: RequestKind, route: Option<Digest>, status: int, result: AdapterResult): Outcome {
    match result.sdk
    case SdkBlocked => AccessOutcome(kind, Refused, AdapterPolicyRefused, status, route, Some(false), Some(result))
    case SdkCompleted => AccessOutcome(kind, Completed, ToolCallCompleted, status, route, Some(true), Some(result))
    case SdkToolFailure => AccessOutcome(kind, Failed, AdapterToolFailure, status, route, Some(true), Some(result))
    case SdkProtocolFailure => AccessOutcome(kind, Failed, AdapterProtocolFailed, status, route, Some(true), Some(result))
    case SdkIdentityMismatch => AccessOutcome(kind, Failed, AdapterIdentityMismatch, status, route, Some(true), Some(result))
  }

  function RequestKindFor(rpcMethod: string): RequestKind {
    if rpcMethod == "server/discover" then ServerDiscovery
    else if rpcMethod == "tools/list" then ToolList
    else if rpcMethod == "tools/call" then ToolCall
    else UnknownRequest
  }

  predicate Contains(message: string, part: string) {
    exists i :: 0 <= i <= |message| && part <= message[i..]
  }

  datatype Fault = Fault(message: string, syntaxError: bool)

  /** classifyRequestFailure */
  function ClassifyRequestFailure(e: Fault): Reason {
    var m := e.message;
    if m == "guard_mcp_http_request_invalid" then HttpRequestRefused
    else if Contains(m, "url_invalid") || Contains(m, "server_not_configured") then TargetRefused
    else if e.syntaxError || Contains(m, "request_too_large") || Contains(m, "request_empty") || Contains(m, "jsonrpc")
            || Contains(m, "id_invalid") || Contains(m, "method_invalid") || Contains(m, "params_invalid")
            || Contains(m, "tool_arguments_invalid") || Contains(m, "tool_name_invalid") || Contains(m, "keys_invalid")
    then BodyRefused
    else if Contains(m, "protocol_version") || Contains(m, "method_header_mismatch") || Contains(m, "name_header_mismatch")
            || Contains(m, "request_meta_invalid") || Contains(m, "meta_protocol")
    then ProtocolRefused
    else if Contains(m, "method_unsupported") then RpcMethodRefused
    else ProxyInternalFailure
  }

  // ----- one handler -----

  /** Where a handler stands: reading the body, waiting for the adapter, or done. */
  datatype Handler =
    | Reading(id: string)
    | Invoking(id: string, route: Option<Digest>)

  /** What the synchronous part after the body was read comes to. */
  datatype Parsed =
    | ReadFault(fault: Fault)
    | ParseFault(rpcMethod: string, route: Option<Digest>, fault: Fault)
    | Discover(route: Option<Digest>)
    | List(route: Option<Digest>)
    | UnroutedTool(route: Option<Digest>)
    | RoutedTool(route: Option<Digest>)

  datatype AdapterEnd =
    | AdapterThrew(fault: Fault)
    | AdapterReturned(result: AdapterResult, nativeFault: Option<Fault>)

  /** The outcomes the handler builds. */
  function FaultOutcome(kind: RequestKind, route: Option<Digest>, fault: Fault, started: bool, result: Option<AdapterResult>): Outcome {
    var reason := ClassifyRequestFailure(fault);
    var upstream := if result.Some? then Some(result.value.sdk != SdkBlocked) else if started then None else Some(false);
    AccessOutcome(kind, if reason == ProxyInternalFailure then Failed else Refused, reason,
                  if reason == ProxyInternalFailure then 500 else 400, route, upstream, result)
  }

  function RefusalAtOnce(origin: bool): Outcome {
    if origin then AccessOutcome(UnknownRequest, Refused, OriginNotAllowed, 403, None, Some(false), None)
    else AccessOutcome(UnknownRequest, Refused, AuthorizationRefused, 401, None, Some(false), None)
  }

  function ParsedOutcome(p: Parsed): Outcome
    requires !p.RoutedTool?
  {
    match p
    case ReadFault(fault) => FaultOutcome(UnknownRequest, None, fault, false, None)
    case ParseFault(rpcMethod, route, fault) => FaultOutcome(RequestKindFor(rpcMethod), route, fault, false, None)
    case Discover(route) => AccessOutcome(ServerDiscovery, Completed, ServerDiscoveryCompleted, 200, route, Some(false), None)
    case List(route) => AccessOutcome(ToolList, Completed, ToolListCompleted, 200, route, Some(false), None)
    case UnroutedTool(route) => AccessOutcome(ToolCall, Refused, ToolRouteNotAllowed, 403, route, Some(false), None)
  }

  function AdapterOutcome(route: Option<Digest>, end: AdapterEnd): Outcome {
    match end
    case AdapterThrew(fault) => FaultOutcome(ToolCall, route, fault, true, None)
    case AdapterReturned(result, nativeFault) =>
      if result.sdk == SdkCompleted || result.hasResponse then
        if nativeFault.Some? then FaultOutcome(ToolCall, route, nativeFault.value, true, Some(result))
        else AccessOutcomeForAdapter(ToolCall, route, 200, result)
      else AccessOutcomeForAdapter(ToolCall, route, if result.sdk == SdkBlocked then 403 else 502, result)
  }

  /** Which of the proxy's counters a recorded outcome moves. */
  datatype Class = AcceptedToolClass | BlockedToolClass | UnauthorizedClass | MalformedClass | MetadataClass

  function ClassOf(o: Outcome): Class {
    if Unauthorized(o) then UnauthorizedClass
    else if Malformed(o) then MalformedClass
    else if o.reason == ServerDiscoveryCompleted || o.reason == ToolListCompleted then MetadataClass
    else if o.status == 200 then AcceptedToolClass
    else BlockedToolClass
  }

  function Increment(c: ProxyCounters, class_: Class): ProxyCounters {
    match class_
    case AcceptedToolClass => c.(acceptedTool := c.acceptedTool + 1)
    case BlockedToolClass => c.(blockedTool := c.blockedTool + 1)
    case UnauthorizedClass => c.(unauthorized := c.unauthorized + 1)
    case MalformedClass => c.(malformed := c.malformed + 1)
    case MetadataClass => c
  }

  datatype Proxy = Proxy(recorder: Recorder, counters: ProxyCounters, handlers: map<nat, Handler>)

  datatype Turn =
    | Arrive(slot: nat, id: string, evidence: Evidence, originPresent: bool, authorized: bool, at: Time)
    | BodyRead(slot: nat, evidence: Evidence, parsed: Parsed, at: Time)
    | AdapterDone(slot: nat, evidence: Evidence, end: AdapterEnd, at: Time)

  /** persist, and then the one counter; a refused receipt destroys the response and counts nothing. */
  ghost function Persist(h: Hash, p: Proxy, id: string, evidence: Evidence, outcome: Outcome, class_: Class, at: Time): Proxy {
    match Append(h, p.recorder, id, evidence, outcome, at)
    case Err(_) => p
    case Ok(r) => p.(recorder := r, counters := Increment(p.counters, class_))
  }

  /** The counter the code increments after each kind of outcome. */
  function ParsedClass(parsed: Parsed): Class {
    match parsed
    case ReadFault(_) => MalformedClass
    case ParseFault(_, _, _) => MalformedClass
    case Discover(_) => MetadataClass
    case List(_) => MetadataClass
    case _ => BlockedToolClass
  }

  function AdapterClass(end: AdapterEnd): Class {
    match end
    case AdapterThrew(_) => MalformedClass
    case AdapterReturned(result, nativeFault) =>
      if result.sdk == SdkCompleted || result.hasResponse then
        if nativeFault.Some? then MalformedClass else AcceptedToolClass
      else BlockedToolClass
  }

  ghost function Next(h: Hash, p: Proxy, turn: Turn): Proxy {
    match turn
    case Arrive(slot, id, evidence, originPresent, authorized, at) =>
      if slot in p.handlers then p
      else if originPresent then Persist(h, p, id, evidence, RefusalAtOnce(true), UnauthorizedClass, at)
      else if !authorized then Persist(h, p, id, evidence, RefusalAtOnce(false), UnauthorizedClass, at)
      else p.(handlers := p.handlers[slot := Reading(id)])
    case BodyRead(slot, evidence, parsed, at) =>
      if slot !in p.handlers || !p.handlers[slot].Reading? then p
      else if parsed.RoutedTool? then p.(handlers := p.handlers[slot := Invoking(p.handlers[slot].id, parsed.route)])
      else
        Persist(h, p.(handlers := p.handlers - {slot}), p.handlers[slot].id, evidence, ParsedOutcome(parsed), ParsedClass(parsed), at)
    case AdapterDone(slot, evidence, end, at) =>
      if slot !in p.handlers || !p.handlers[slot].Invoking? then p
      else
        Persist(h, p.(handlers := p.handlers - {slot}), p.handlers[slot].id, evidence,
                AdapterOutcome(p.handlers[slot].route, end), AdapterClass(end), at)
  }

  /** The adapter keeps its promise on responses. */
  predicate Promised(turn: Turn) {
    turn.AdapterDone? && turn.end.AdapterReturned? ==> AdapterPromise(turn.end.result)
  }

  ghost function Run(h: Hash, p: Proxy, turns: seq<Turn>): Proxy
    decreases |turns|
  {
    if turns == [] then p else Run(h, Next(h, p, turns[0]), turns[1..])
  }

  // ----- every outcome passes its check -----

  lemma FaultOutcomePasses(kind: RequestKind, route: Option<Digest>, fault: Fault, started: bool, result: Option<AdapterResult>)
    requires result.Some? ==> kind == ToolCall
    ensures OutcomeOk(FaultOutcome(kind, route, fault, started, result))
    ensures ClassOf(FaultOutcome(kind, route, fault, started, result)) == MalformedClass
  {
    hide Contains;
  }

  lemma ParsedOutcomePasses(parsed: Parsed)
    requires !parsed.RoutedTool?
    ensures OutcomeOk(ParsedOutcome(parsed)) && ClassOf(ParsedOutcome(parsed)) == ParsedClass(parsed)
  {
    hide FaultOutcome, OutcomeOk;
    match parsed
    case ReadFault(fault) => FaultOutcomePasses(UnknownRequest, None, fault, false, None);
    case ParseFault(rpcMethod, route, fault) => FaultOutcomePasses(RequestKindFor(rpcMethod), route, fault, false, None);
    case _ => PlainOutcomePasses(parsed);
  }

  lemma PlainOutcomePasses(parsed: Parsed)
    requires !parsed.RoutedTool? && !parsed.ReadFault? && !parsed.ParseFault?
    ensures OutcomeOk(ParsedOutcome(parsed)) && ClassOf(ParsedOutcome(parsed)) == ParsedClass(parsed)
  {
    hide FaultOutcome;
  }

  lemma AdapterOutcomePasses(route: Option<Digest>, end: AdapterEnd)
    requires end.AdapterReturned? ==> AdapterPromise(end.result)
    ensures OutcomeOk(AdapterOutcome(route, end)) && ClassOf(AdapterOutcome(route, end)) == AdapterClass(end)
  {
    match end
    case AdapterThrew(fault) =>
      FaultOutcomePasses(ToolCall, route, fault, true, None);
      hide FaultOutcome;
    case AdapterReturned(result, nativeFault) =>
      if nativeFault.Some? {
        FaultOutcomePasses(ToolCall, route, nativeFault.value, true, Some(result));
      }
      hide FaultOutcome;
  }

  /** Whatever the requests, the parsing and the adapter do, an outcome the handler builds passes the
      journal's outcome check, and the counter it moves is the class of the outcome. */
  lemma HandlerOutcomesPass(parsed: Parsed, route: Option<Digest>, end: AdapterEnd, origin: bool)
    requires !parsed.RoutedTool? && (end.AdapterReturned? ==> AdapterPromise(end.result))
    ensures OutcomeOk(RefusalAtOnce(origin)) && ClassOf(RefusalAtOnce(origin)) == UnauthorizedClass
    ensures OutcomeOk(ParsedOutcome(parsed)) && ClassOf(ParsedOutcome(parsed)) == ParsedClass(parsed)
    ensures OutcomeOk(AdapterOutcome(route, end)) && ClassOf(AdapterOutcome(route, end)) == AdapterClass(end)
  {
    ParsedOutcomePasses(parsed);
    AdapterOutcomePasses(route, end);
    hide ParsedOutcome, AdapterOutcome;
  }

  // ----- the accounts -----

  function ClassCount(receipts: seq<Receipt>, class_: Class): nat {
    if receipts == [] then 0
    else ClassCount(receipts[..|receipts| - 1], class_) + One(ClassOf(receipts[|receipts| - 1].body.outcome) == class_)
  }

  /** Receipts of faulty requests that had already been recognised as tool calls. */
  function FaultyToolCalls(receipts: seq<Receipt>): nat {
    if receipts == [] then 0
    else
      var o := receipts[|receipts| - 1].body.outcome;
      FaultyToolCalls(receipts[..|receipts| - 1]) + One(Malformed(o) && o.kind == ToolCall)
  }

  /** The shape every outcome of the handler has, beyond what the journal checks. */
  predicate HandlerOutcome(o: Outcome) {
    match ClassOf(o)
    case MetadataClass => Metadata(o) && o.kind != ToolCall
    case UnauthorizedClass => !Metadata(o) && o.kind != ToolCall
    case MalformedClass => o.disposition != Completed
    case _ => o.kind == ToolCall
  }

  ghost predicate Accounted(p: Proxy) {
    var receipts := p.recorder.receipts;
    && p.counters == ProxyCounters(ClassCount(receipts, AcceptedToolClass), ClassCount(receipts, BlockedToolClass),
                                   ClassCount(receipts, UnauthorizedClass), ClassCount(receipts, MalformedClass))
    && forall i {:trigger receipts[i]} :: 0 <= i < |receipts| ==> HandlerOutcome(receipts[i].body.outcome)
  }

  lemma PersistKeeps(h: Hash, p: Proxy, id: string, evidence: Evidence, outcome: Outcome, class_: Class, at: Time)
    requires Accounted(p) && HandlerOutcome(outcome) && ClassOf(outcome) == class_
    ensures Accounted(Persist(h, p, id, evidence, outcome, class_, at))
  {
    hide ChainAccepted, HandlerOutcome, ClassOf;
    var receipt := NextReceipt(h, p.recorder, id, evidence, outcome, at);
    var grown := p.recorder.receipts + [receipt];
    assert grown[..|p.recorder.receipts|] == p.recorder.receipts && grown[|p.recorder.receipts|] == receipt;
  }

  lemma HandlerShapes(parsed: Parsed, route: Option<Digest>, end: AdapterEnd, origin: bool)
    requires !parsed.RoutedTool? && (end.AdapterReturned? ==> AdapterPromise(end.result))
    ensures HandlerOutcome(RefusalAtOnce(origin)) && HandlerOutcome(ParsedOutcome(parsed)) && HandlerOutcome(AdapterOutcome(route, end))
  {
    hide Contains, ClassifyRequestFailure;
    HandlerOutcomesPass(parsed, route, end, origin);
    hide ClassOf, OutcomeOk;
  }

  lemma NextKeeps(h: Hash, p: Proxy, turn: Turn)
    requires Accounted(p) && Promised(turn)
    ensures Accounted(Next(h, p, turn))
  {
    hide Accounted, ParsedOutcome, AdapterOutcome, RefusalAtOnce, OutcomeOk, ClassOf, HandlerOutcome, Persist;
    var someFault := Fault("", false);
    match turn
    case Arrive(slot, id, evidence, originPresent, authorized, at) =>
      HandlerShapes(ReadFault(someFault), None, AdapterThrew(someFault), originPresent);
      HandlerOutcomesPass(ReadFault(someFault), None, AdapterThrew(someFault), originPresent);
      PersistKeeps(h, p, id, evidence, RefusalAtOnce(originPresent), UnauthorizedClass, at);
      if slot !in p.handlers { HandlersDoNotCount(p, p.handlers[slot := Reading(id)]); }
    case BodyRead(slot, evidence, parsed, at) =>
      if slot in p.handlers && p.handlers[slot].Reading? {
        HandlersDoNotCount(p, p.handlers - {slot});
        HandlersDoNotCount(p, p.handlers[slot := Invoking(p.handlers[slot].id, if parsed.RoutedTool? then parsed.route else None)]);
        if !parsed.RoutedTool? {
          HandlerShapes(parsed, None, AdapterThrew(someFault), false);
          HandlerOutcomesPass(parsed, None, AdapterThrew(someFault), false);
          PersistKeeps(h, p.(handlers := p.handlers - {slot}), p.handlers[slot].id, evidence, ParsedOutcome(parsed), ParsedClass(parsed), at);
        }
      }
    case AdapterDone(slot, evidence, end, at) =>
      if slot in p.handlers && p.handlers[slot].Invoking? {
        HandlersDoNotCount(p, p.handlers - {slot});
        var route := p.handlers[slot].route;
        HandlerShapes(ReadFault(someFault), route, end, false);
        HandlerOutcomesPass(ReadFault(someFault), route, end, false);
        PersistKeeps(h, p.(handlers := p.handlers - {slot}), p.handlers[slot].id, evidence, AdapterOutcome(route, end), AdapterClass(end), at);
      }
  }

  lemma HandlersDoNotCount(p: Proxy, handlers: map<nat, Handler>)
    requires Accounted(p)
    ensures Accounted(p.(handlers := handlers))
  {
  }

  lemma {:induction false} RunKeeps(h: Hash, p: Proxy, turns: seq<Turn>)
    requires Accounted(p) && forall i :: 0 <= i < |turns| ==> Promised(turns[i])
    ensures Accounted(Run(h, p, turns))
    decreases |turns|
  {
    hide Accounted, Next;
    if turns != [] {
      NextKeeps(h, p, turns[0]);
      RunKeeps(h, Next(h, p, turns[0]), turns[1..]);
    }
  }

  lemma {:induction false} ClassesMatchJournal(receipts: seq<Receipt>)
    requires forall i {:trigger receipts[i]} :: 0 <= i < |receipts| ==> HandlerOutcome(receipts[i].body.outcome)
    ensures var c := CountersFor(receipts);
            && c.total == |receipts|
            && c.unauthorized == ClassCount(receipts, UnauthorizedClass)
            && c.malformed == ClassCount(receipts, MalformedClass)
            && c.metadata == ClassCount(receipts, MetadataClass)
            && ClassCount(receipts, AcceptedToolClass) + ClassCount(receipts, BlockedToolClass) + c.unauthorized + c.malformed
               + c.metadata == c.total
            && c.acceptedTool + c.blockedTool + c.failedTool
               == ClassCount(receipts, AcceptedToolClass) + ClassCount(receipts, BlockedToolClass) + FaultyToolCalls(receipts)
  {
    if receipts != [] {
      var init := receipts[..|receipts| - 1];
      assert forall i :: 0 <= i < |init| ==> init[i] == receipts[i];
      ClassesMatchJournal(init);
      var o := receipts[|receipts| - 1].body.outcome;
      OneClass(o);
      OneStep(o);
      hide ClassOf, HandlerOutcome, Malformed, Unauthorized, Metadata;
    }
  }

  lemma OneClass(o: Outcome)
    ensures One(ClassOf(o) == AcceptedToolClass) + One(ClassOf(o) == BlockedToolClass) + One(ClassOf(o) == UnauthorizedClass)
            + One(ClassOf(o) == MalformedClass) + One(ClassOf(o) == MetadataClass) == 1
  {
  }

  lemma OneStep(o: Outcome)
    requires HandlerOutcome(o)
    ensures One(Unauthorized(o)) == One(ClassOf(o) == UnauthorizedClass)
    ensures One(Malformed(o)) == One(ClassOf(o) == MalformedClass)
    ensures One(Metadata(o)) == One(ClassOf(o) == MetadataClass)
    ensures One(o.kind == ToolCall && o.disposition == Completed) + One(o.kind == ToolCall && o.disposition == Refused)
            + One(o.kind == ToolCall && o.disposition == Failed)
            == One(ClassOf(o) == AcceptedToolClass) + One(ClassOf(o) == BlockedToolClass) + One(Malformed(o) && o.kind == ToolCall)
  {
  }

  /** In every schedule: each recorded request moved exactly one class, the classes add up to all recorded
      requests, unauthorized and malformed agree with what the journal recounts, and the journal's three
      tool counters exceed the proxy's two by exactly the faulty requests already recognised as calls. */
  lemma AccountsAddUp(h: Hash, header: Header, turns: seq<Turn>)
    requires forall i :: 0 <= i < |turns| ==> Promised(turns[i])
    ensures var p := Run(h, Proxy(Recorder(header, [], false, false), ProxyCounters(0, 0, 0, 0), map[]), turns);
            var (c, journal) := (p.counters, CountersFor(p.recorder.receipts));
            && c.acceptedTool + c.blockedTool + c.unauthorized + c.malformed + journal.metadata == journal.total
            && journal.total == |p.recorder.receipts|
            && c.unauthorized == journal.unauthorized && c.malformed == journal.malformed
            && journal.acceptedTool + journal.blockedTool + journal.failedTool
               == c.acceptedTool + c.blockedTool + FaultyToolCalls(p.recorder.receipts)
  {
    var start := Proxy(Recorder(header, [], false, false), ProxyCounters(0, 0, 0, 0), map[]);
    RunKeeps(h, start, turns);
    hide Run, CountersFor, ClassCount, FaultyToolCalls;
    ClassesMatchJournal(Run(h, start, turns).recorder.receipts);
  }

  /** A tool call with a bad protocol header is one request, but the journal counts it twice: as malformed
      and as a blocked tool call. Its route is known by the time the headers are checked. */
  lemma FaultyToolCallCountsTwice(route: Digest)
    ensures var o := ParsedOutcome(ParseFault("tools/call", Some(route), Fault("guard_mcp_http_protocol_version_invalid", false)));
            OutcomeOk(o) && Malformed(o) && Tally(Counters(0, 0, 0, 0, 0, 0, 0), o) == Counters(1, 0, 0, 1, 0, 1, 0)
  {
    hide ClassifyRequestFailure, Contains;
    ProtocolVersionIsRefusal();
    RefusedCallCountsTwice(route, Fault("guard_mcp_http_protocol_version_invalid", false));
  }

  lemma RefusedCallCountsTwice(route: Digest, fault: Fault)
    requires ClassifyRequestFailure(fault) != ProxyInternalFailure
    ensures var o := ParsedOutcome(ParseFault("tools/call", Some(route), fault));
            OutcomeOk(o) && Malformed(o) && Tally(Counters(0, 0, 0, 0, 0, 0, 0), o) == Counters(1, 0, 0, 1, 0, 1, 0)
  {
    FaultOutcomePasses(ToolCall, Some(route), fault, false, None);
    hide ClassifyRequestFailure;
  }

  lemma ProtocolVersionIsRefusal()
    ensures ClassifyRequestFailure(Fault("guard_mcp_http_protocol_version_invalid", false)) != ProxyInternalFailure
  {
    var m := "guard_mcp_http_protocol_version_invalid";
    assert m[15..] == "protocol_version_invalid";
    assert Contains(m, "protocol_version");
    hide Contains;
  }
}
