/** The authenticated stdio proxy and its tool adapter, split at their awaits: queued invocations, the
    one exchange with the child, timeouts, child exit, interrupts and session messages in any order
    (src/mcp-stdio-proxy.ts, src/mcp-adapter.ts). */
module StdioProxy {
  import opened Common
  import opened StdioJournal
  import opened StdioRecorder

  /** A tool request. Whether its body is a JSON object and its envelope is within the line limit are
      facts about bytes that are not modelled. */
  datatype Request = Request(
    operationId: string,
    attemptNumber: int,
    routeSha: Digest,
    requestSha: Digest,
    requestBytes: int,
    argumentsReadable: bool,
    envelopeFits: bool)

  function TransactionOf(id: string, q: Request): Transaction {
    Transaction(id, q.operationId, q.attemptNumber, q.routeSha, q.requestSha, q.requestBytes)
  }

  datatype Context = Context(id: string, request: Request, persisted: bool, wrote: bool)

  /** A JSON-RPC message of the child that is not a method call. */
  datatype Message = Message(version2: bool, id: Option<string>, hasResult: bool, hasError: bool)

  datatype Reply = Resolved(message: Message) | Rejected

  datatype Phase =
    | Idle
    | Discovering(request: Request, rejected: bool)
    | Deciding(context: Context)
    | Waiting(context: Context)
    | Settled(context: Context, reply: Reply)

  datatype Line = ToolCall(id: string) | Control(id: string) | Notification

  /** A line given to the child, and how many receipts were durable by then. */
  datatype Written = Written(line: Line, durable: nat)

  /** How an invocation ended: with a disposition and the reply it rests on, or by an exception. */
  datatype Finish =
    | Returned(id: string, disposition: Disposition, reply: Option<Message>)
    | Threw(request: Option<string>)

  /** The adapter with its SDK recorder, made for the first invocation that needs it: how many operations
      have ended, and how many were begun and have not. */
  datatype Sdk = NoAdapter | Adapter(recorded: nat, open: nat)

  /** What close came to. */
  datatype Closing =
    | Bundled(bundle: Bundle)
    | SdkOpenOperations
    | SdkEmptyBundle
    | AccessRefused(error: RecorderError)

  datatype State = State(
    session: bool,
    recorder: Recorder,
    sdk: Sdk,
    queue: seq<Request>,
    phase: Phase,
    pending: Option<string>,
    exited: bool,
    failed: bool,
    closed: bool,
    writes: seq<Written>,
    finished: seq<Finish>,
    ending: Option<Closing>)

  /** How far the start of an operation came before it threw. */
  datatype BeginFault = AdapterRefused | NothingBegun | LeftOpen

  /** What the SDK recorder makes of the start of an operation. */
  datatype SdkBegin =
    | BeginThrows(fault: BeginFault)
    | Censored(occurrence: Digest, authorizedAt: Time, endedAt: Time)
    | Dispatched(authorizedAt: Time, writable: bool, sessionAppendOk: bool)

  /** What the SDK recorder makes of the end of an operation. */
  datatype SdkEnd = EndThrows | Recorded | MismatchRecorded | ProtocolFailureRecorded

  datatype Incoming =
    | Response(message: Message)
    | Ping
    | CatalogChanged
    | Progress(acceptable: bool)
    | Unacceptable

  /** One turn of the event loop. */
  datatype Turn =
    | Invoke(request: Request)
    | Start(id: string)
    | ControlSent(id: string, writable: bool, sessionAppendOk: bool)
    | DiscoverReturns(id: string)
    | DiscoverThrows
    | Decided(begin: SdkBegin)
    | FromChild(incoming: Incoming)
    | Timeout
    | ChildExit
    | WriteFailed
    | Interrupt(sessionAppendOk: bool)
    | Continue(end: SdkEnd, occurrence: Digest, at: Time)
    | Close
    | FinishClose(at: Time)

  function NewState(session: bool, header: Header): State {
    State(session, NewRecorder(header), NoAdapter, [], Idle, None, false, false, false, [], [], None)
  }

  // ----- settling the pending exchange -----

  function Settle(s: State, reply: Reply): State {
    var phase := match s.phase
      case Waiting(context) => Settled(context, reply)
      case Discovering(request, _) => Discovering(request, reply.Rejected?)
      case other => other;
    s.(pending := None, phase := phase)
  }

  function RejectPending(s: State): State {
    if s.pending.Some? then Settle(s, Rejected) else s
  }

  /** failSession; the kill it sends shows as a later ChildExit. */
  function FailSession(s: State): State { RejectPending(s.(failed := true)) }

  function Write(s: State, line: Line): State {
    s.(writes := s.writes + [Written(line, |s.recorder.receipts|)])
  }

  // ----- invocations -----

  function ThrowOut(s: State, id: Option<string>): State {
    s.(phase := Idle, finished := s.finished + [Threw(id)])
  }

  /** The part of invokeSerial that creates the context. */
  function BeginCall(s: State, request: Request, id: string): State {
    if s.exited then ThrowOut(s, None) else s.(phase := Deciding(Context(id, request, false, false)))
  }

  function StartNext(s: State, id: string): State {
    if s.phase != Idle || s.queue == [] then s
    else
      var request := s.queue[0];
      var next := s.(queue := s.queue[1..]);
      if s.failed then ThrowOut(next, None)
      else if s.session then next.(phase := Discovering(request, false))
      else BeginCall(next, request, id)
  }

  /** A tools/list exchange of a running discovery. */
  function SendControl(s: State, id: string, writable: bool, sessionAppendOk: bool): State {
    if !s.phase.Discovering? || s.pending.Some? || s.phase.rejected then s
    else if s.exited || !writable || !sessionAppendOk then s.(phase := s.phase.(rejected := true))
    else Write(s.(pending := Some(id)), Control(id))
  }

  function EndDiscovery(s: State, id: Option<string>): State {
    if !s.phase.Discovering? || s.pending.Some? then s
    else if id.None? || s.failed || s.phase.rejected then ThrowOut(FailSession(s), None)
    else BeginCall(s, s.phase.request, id.value)
  }

  /** A blocked operation: authorization and terminal are recorded, nothing is sent. */
  ghost function Block(h: Hash, s: State, c: Context, occurrence: Digest, authorizedAt: Time, endedAt: Time): State {
    match Authorize(h, s.recorder, TransactionOf(c.id, c.request), Blocked, authorizedAt)
    case Err(_) => ThrowOut(s, Some(c.id))
    case Ok(authorized) =>
      match Terminate(h, authorized, c.id, Refused, occurrence, c.wrote, endedAt)
      case Err(_) => ThrowOut(s.(recorder := authorized), Some(c.id))
      case Ok(done) =>
        s.(recorder := done, phase := Idle, finished := s.finished + [Returned(c.id, Refused, None)])
  }

  /** dispatchAuthorized up to its await: authorize durably, then write. */
  ghost function Dispatch(h: Hash, s: State, c: Context, at: Time, writable: bool, sessionAppendOk: bool): State {
    match Authorize(h, s.recorder, TransactionOf(c.id, c.request), Allowed, at)
    case Err(_) => s.(phase := Settled(c, Rejected))
    case Ok(authorized) =>
      var next := s.(recorder := authorized);
      var allowed := c.(persisted := true);
      if !c.request.argumentsReadable || !c.request.envelopeFits || s.pending.Some? || s.exited || !writable then
        next.(phase := Settled(allowed, Rejected))
      else if s.session && !sessionAppendOk then
        next.(phase := Settled(allowed, Rejected))
      else
        Write(next.(pending := Some(c.id), phase := Waiting(allowed.(wrote := true))), ToolCall(c.id))
  }

  /** The SDK recorder after the start of an operation: a censored one has ended at once. */
  function AfterBegin(sdk: Sdk, begin: SdkBegin): Sdk {
    var made := if sdk.NoAdapter? then Adapter(0, 0) else sdk;
    match begin
    case BeginThrows(AdapterRefused) => sdk
    case BeginThrows(NothingBegun) => made
    case BeginThrows(LeftOpen) => made.(open := made.open + 1)
    case Censored(_, _, _) => made.(recorded := made.recorded + 1)
    case Dispatched(_, _, _) => made.(open := made.open + 1)
  }

  /** The SDK recorder after the end of an operation: one whose end throws stays open. */
  function AfterEnd(sdk: Sdk, end: SdkEnd): Sdk {
    if sdk.NoAdapter? || sdk.open == 0 || end == EndThrows then sdk else Adapter(sdk.recorded + 1, sdk.open - 1)
  }

  ghost function Decide(h: Hash, given: State, begin: SdkBegin): State {
    if !given.phase.Deciding? then given
    else
      var s := given.(sdk := AfterBegin(given.sdk, begin));
      var c := s.phase.context;
      match begin
      case BeginThrows(_) => ThrowOut(s, Some(c.id))
      case Censored(occurrence, authorizedAt, endedAt) => Block(h, s, c, occurrence, authorizedAt, endedAt)
      case Dispatched(at, writable, appendOk) => Dispatch(h, s, c, at, writable, appendOk)
  }

  // ----- messages of the child -----

  predicate Answers(m: Message, id: string) {
    m.version2 && m.id == Some(id) && m.hasResult != m.hasError
  }

  function Receive(s: State, incoming: Incoming): State {
    if s.session then
      match incoming
      case Response(m) =>
        if s.pending.None? || !Answers(m, s.pending.value) then FailSession(s) else Settle(s, Resolved(m))
      case Ping => Write(s, Notification)
      case CatalogChanged => s
      case Progress(acceptable) => if acceptable then s else FailSession(s)
      case Unacceptable => FailSession(s)
    else if s.pending.None? then s
    else
      match incoming
      case Response(m) => Settle(s, Resolved(m))
      case _ => RejectPending(s)
  }

  function InterruptNow(s: State, sessionAppendOk: bool): State {
    var requested := s.session && s.pending.Some? && (s.phase.Waiting? || s.phase.Settled?) && !s.exited;
    FailSession(if requested && sessionAppendOk then Write(s, Notification) else s)
  }

  // ----- the end of an invocation -----

  /** The disposition the adapter reports, if the SDK records one. */
  function DispositionOf(s: State, c: Context, reply: Reply, end: SdkEnd): Option<Disposition> {
    if end == EndThrows then None
    else if reply.Rejected? || s.failed || !Answers(reply.message, c.id) then Some(ToolFailure)
    else if end == MismatchRecorded then Some(IdentityMismatch)
    else if end == ProtocolFailureRecorded then Some(ProtocolFailure)
    else Some(if reply.message.hasError then ToolFailure else Completed)
  }

  /** The access terminal, and the return. */
  ghost function EndCall(h: Hash, s: State, c: Context, reply: Reply, disposition: Disposition, occurrence: Digest, at: Time): State {
    match Terminate(h, s.recorder, c.id, disposition, occurrence, c.wrote, at)
    case Err(_) => ThrowOut(s, Some(c.id))
    case Ok(done) =>
      var message := if reply.Resolved? then Some(reply.message) else None;
      s.(recorder := done, phase := Idle, finished := s.finished + [Returned(c.id, disposition, message)])
  }

  ghost function Complete(h: Hash, given: State, end: SdkEnd, occurrence: Digest, at: Time): State {
    if !given.phase.Settled? then given
    else
      var s := given.(sdk := AfterEnd(given.sdk, end));
      var c := s.phase.context;
      match DispositionOf(s, c, s.phase.reply, end)
      case None => ThrowOut(s, Some(c.id))
      case Some(disposition) =>
        if !c.persisted then ThrowOut(s, Some(c.id))
        else EndCall(h, s, c, s.phase.reply, disposition, occurrence, at)
  }

  /** finalize of the SDK recorder, which close calls first if there is an adapter. */
  function SdkRefusal(sdk: Sdk): Option<Closing> {
    if sdk.NoAdapter? then None
    else if sdk.open != 0 then Some(SdkOpenOperations)
    else if sdk.recorded == 0 then Some(SdkEmptyBundle)
    else None
  }

  /** The last part of close, once the queue is done and the child is gone. It comes once. */
  ghost function FinishClosing(h: Hash, s: State, at: Time): State {
    if !s.closed || s.ending.Some? || s.phase != Idle || s.queue != [] || !s.exited then s
    else
      match SdkRefusal(s.sdk)
      case Some(refusal) => s.(ending := Some(refusal))
      case None =>
        var (r, out) := Finalize(h, s.recorder, [], [], at);
        s.(recorder := r, ending := Some(if out.Ok? then Bundled(out.value) else AccessRefused(out.error)))
  }

  ghost function Next(h: Hash, s: State, turn: Turn): State {
    match turn
    case Invoke(request) => if s.closed then s else s.(queue := s.queue + [request])
    case Start(id) => StartNext(s, id)
    case ControlSent(id, writable, appendOk) => SendControl(s, id, writable, appendOk)
    case DiscoverReturns(id) => EndDiscovery(s, Some(id))
    case DiscoverThrows => EndDiscovery(s, None)
    case Decided(begin) => Decide(h, s, begin)
    case FromChild(incoming) => Receive(s, incoming)
    case Timeout => RejectPending(s)
    case ChildExit => RejectPending(s.(exited := true))
    case WriteFailed => RejectPending(s)
    case Interrupt(appendOk) => InterruptNow(s, appendOk)
    case Continue(end, occurrence, at) => Complete(h, s, end, occurrence, at)
    case Close => s.(closed := true)
    case FinishClose(at) => FinishClosing(h, s, at)
  }

  ghost function Run(h: Hash, s: State, turns: seq<Turn>): State
    decreases |turns|
  {
    if turns == [] then s else Run(h, Next(h, s, turns[0]), turns[1..])
  }
}
