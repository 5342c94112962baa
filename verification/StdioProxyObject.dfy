/** The stdio proxy as the object it is: its handlers update the fields in place and call the durable
    recorder, each proved to be the step StdioProxy describes (src/mcp-stdio-proxy.ts). */
module StdioProxyObject {
  import opened Common
  import opened StdioJournal
  import opened StdioRecorder
  import opened StdioObjects
  import opened StdioProxy

  class AuthenticatedMcpStdioProxy {
    const session: bool
    const accessRecorder: McpStdioAccessRecorder
    var queue: seq<Request>
    var phase: Phase
    var pending: Option<string>
    var exited: bool
    var sessionFailed: bool
    var closed: bool
    var writes: seq<Written>
    var finished: seq<Finish>
    var sdk: Sdk
    var ending: Option<Closing>

    ghost function View(): State
      reads this, accessRecorder
    {
      State(session, accessRecorder.View(), sdk, queue, phase, pending, exited, sessionFailed, closed, writes, finished, ending)
    }

    /** The durable recorder is valid between any two handlers. */
    ghost predicate Valid()
      reads this, accessRecorder
    {
      accessRecorder.Valid()
    }

    constructor (session: bool, hash: Hash, header: Header)
      requires header.sha == hash(HeaderContent(header.body))
      ensures Valid() && View() == NewState(session, header) && accessRecorder.hash == hash && fresh(accessRecorder)
    {
      this.session := session;
      accessRecorder := new McpStdioAccessRecorder(hash, header);
      queue, phase, pending := [], Idle, None;
      exited, sessionFailed, closed := false, false, false;
      writes, finished := [], [];
      sdk, ending := NoAdapter, None;
    }

    method Call(request: Request)
      modifies this`queue
      ensures View() == Next(accessRecorder.hash, old(View()), Invoke(request))
    {
      if closed { return; }
      queue := queue + [request];
    }

    method RejectPendingExchange()
      modifies this`pending, this`phase
      ensures View() == RejectPending(old(View()))
    {
      if pending.None? { return; }
      pending := None;
      match phase {
        case Waiting(context) => phase := Settled(context, Rejected);
        case Discovering(request, _) => phase := Discovering(request, true);
        case _ =>
      }
    }

    method Fail()
      modifies this`pending, this`phase, this`sessionFailed
      ensures View() == FailSession(old(View()))
    {
      sessionFailed := true;
      RejectPendingExchange();
    }

    method Resolve(m: Message)
      modifies this`pending, this`phase
      ensures View() == Settle(old(View()), Resolved(m))
    {
      pending := None;
      match phase {
        case Waiting(context) => phase := Settled(context, Resolved(m));
        case Discovering(request, _) => phase := Discovering(request, false);
        case _ =>
      }
    }

    method WriteLine(line: Line)
      modifies this`writes
      ensures View() == Write(old(View()), line)
    {
      writes := writes + [Written(line, |accessRecorder.receiptList|)];
    }

    /** What the child's output does, one message at a time. */
    method OnMessage(incoming: Incoming)
      modifies this`pending, this`phase, this`sessionFailed, this`writes
      ensures View() == Receive(old(View()), incoming)
    {
      hide FailSession, RejectPending, Settle, Write;
      if session {
        match incoming {
          case Response(m) =>
            if pending.None? || !Answers(m, pending.value) { Fail(); } else { Resolve(m); }
          case Ping => WriteLine(Notification);
          case CatalogChanged =>
          case Progress(acceptable) => if !acceptable { Fail(); }
          case Unacceptable => Fail();
        }
      } else if pending.Some? {
        match incoming {
          case Response(m) => Resolve(m);
          case _ => RejectPendingExchange();
        }
      }
    }

    method OnExit()
      modifies this`exited, this`pending, this`phase
      ensures View() == RejectPending(old(View()).(exited := true))
    {
      exited := true;
      RejectPendingExchange();
    }

    method InterruptSession(sessionAppendOk: bool)
      modifies this`writes, this`pending, this`phase, this`sessionFailed
      ensures View() == InterruptNow(old(View()), sessionAppendOk)
    {
      if session && pending.Some? && (phase.Waiting? || phase.Settled?) && !exited && sessionAppendOk {
        WriteLine(Notification);
      }
      Fail();
    }

    method ThrowFrom(id: string)
      modifies this`phase, this`finished
      ensures View() == ThrowOut(old(View()), Some(id))
    {
      phase, finished := Idle, finished + [Threw(Some(id))];
    }

    method BlockCall(c: Context, occurrence: Digest, authorizedAt: Time, endedAt: Time)
      requires Valid()
      modifies this, accessRecorder
      ensures Valid()
      ensures View() == Block(accessRecorder.hash, old(View()), c, occurrence, authorizedAt, endedAt)
    {
      hide Authorize, Terminate;
      var authorized := accessRecorder.AuthorizeRequest(TransactionOf(c.id, c.request), Blocked, authorizedAt);
      if authorized.Err? {
        ThrowFrom(c.id);
        return;
      }
      var ended := accessRecorder.Terminal(c.id, Refused, occurrence, c.wrote, endedAt);
      if ended.Err? {
        ThrowFrom(c.id);
        return;
      }
      phase, finished := Idle, finished + [Returned(c.id, Refused, None)];
    }

    /** dispatchAuthorized and exchange: authorize durably, then write the line. */
    method DispatchCall(given: Context, at: Time, writable: bool, appendOk: bool)
      requires Valid()
      modifies this, accessRecorder
      ensures Valid()
      ensures View() == Dispatch(accessRecorder.hash, old(View()), given, at, writable, appendOk)
    {
      hide Authorize;
      var c := given;
      var authorized := accessRecorder.AuthorizeRequest(TransactionOf(c.id, c.request), Allowed, at);
      if authorized.Err? {
        phase := Settled(c, Rejected);
        return;
      }
      c := c.(persisted := true);
      if !c.request.argumentsReadable || !c.request.envelopeFits || pending.Some? || exited || !writable {
        phase := Settled(c, Rejected);
        return;
      }
      pending := Some(c.id);
      if session && !appendOk {
        pending, phase := None, Settled(c, Rejected);
        return;
      }
      c := c.(wrote := true);
      phase := Waiting(c);
      WriteLine(ToolCall(c.id));
    }

    /** The policy answer arrived and the operation began: block it, or authorize, then write. */
    method OnDecision(begin: SdkBegin)
      requires Valid()
      modifies this, accessRecorder
      ensures Valid()
      ensures View() == Decide(accessRecorder.hash, old(View()), begin)
    {
      hide Block, Dispatch;
      if !phase.Deciding? { return; }
      sdk := AfterBegin(sdk, begin);
      var c := phase.context;
      match begin {
        case BeginThrows(_) => ThrowFrom(c.id);
        case Censored(occurrence, authorizedAt, endedAt) => BlockCall(c, occurrence, authorizedAt, endedAt);
        case Dispatched(at, writable, appendOk) => DispatchCall(c, at, writable, appendOk);
      }
    }

    /** What the adapter reports for the settled exchange. */
    method ReportDisposition(c: Context, reply: Reply, end: SdkEnd) returns (disposition: Option<Disposition>)
      ensures disposition == DispositionOf(View(), c, reply, end)
    {
      if end == EndThrows { return None; }
      if reply.Rejected? || sessionFailed || !Answers(reply.message, c.id) { return Some(ToolFailure); }
      if end == MismatchRecorded { return Some(IdentityMismatch); }
      if end == ProtocolFailureRecorded { return Some(ProtocolFailure); }
      return Some(if reply.message.hasError then ToolFailure else Completed);
    }

    method RecordEnd(c: Context, reply: Reply, disposition: Disposition, occurrence: Digest, at: Time)
      requires Valid()
      modifies this`phase, this`finished, accessRecorder
      ensures Valid()
      ensures View() == EndCall(accessRecorder.hash, old(View()), c, reply, disposition, occurrence, at)
    {
      hide Terminate;
      var ended := accessRecorder.Terminal(c.id, disposition, occurrence, c.wrote, at);
      if ended.Err? {
        ThrowFrom(c.id);
        return;
      }
      phase := Idle;
      finished := finished + [Returned(c.id, disposition, if reply.Resolved? then Some(reply.message) else None)];
    }

    /** The settled exchange continues: the operation ends, then the transaction. */
    method OnSettled(end: SdkEnd, occurrence: Digest, at: Time)
      requires Valid()
      modifies this, accessRecorder
      ensures Valid()
      ensures View() == Complete(accessRecorder.hash, old(View()), end, occurrence, at)
    {
      hide EndCall, DispositionOf, AfterEnd;
      if !phase.Settled? { return; }
      sdk := AfterEnd(sdk, end);
      var c, reply := phase.context, phase.reply;
      var disposition := ReportDisposition(c, reply, end);
      if disposition.None? || !c.persisted {
        ThrowFrom(c.id);
        return;
      }
      RecordEnd(c, reply, disposition.value, occurrence, at);
    }

    /** The last part of close: the SDK recorder first, then the access recorder. */
    method OnClosed(at: Time)
      requires Valid()
      modifies this, accessRecorder
      ensures Valid()
      ensures View() == FinishClosing(accessRecorder.hash, old(View()), at)
    {
      hide Finalize;
      if !closed || ending.Some? || phase != Idle || queue != [] || !exited { return; }
      var refusal := SdkRefusal(sdk);
      if refusal.Some? {
        ending := refusal;
        return;
      }
      var out := accessRecorder.FinalizeSession([], [], at);
      ending := Some(if out.Ok? then Bundled(out.value) else AccessRefused(out.error));
    }
  }
}
