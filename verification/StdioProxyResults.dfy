/** What an invocation of the stdio proxy comes to: the disposition it returns, and what its receipts
    say (src/mcp-adapter.ts, src/mcp-stdio-proxy.ts). */
module StdioProxyResults {
  import opened Common
  import opened StdioJournal
  import opened StdioRecorder
  import opened StdioContents
  import opened StdioProxy

  /** The call was exchanged, its session did not fail, and the reply is a result or an error under its id. */
  predicate ValidAnswer(s: State, id: string, reply: Reply) {
    && reply.Resolved? && !s.failed
    && reply.message.version2 && reply.message.id == Some(id) && reply.message.hasResult != reply.message.hasError
  }

  /** The disposition of a persisted call, from its reply, the session and what the SDK recorded. */
  predicate Reported(d: Disposition, valid: bool, toolError: bool, end: SdkEnd) {
    && (d == IdentityMismatch <==> valid && end == MismatchRecorded)
    && (d == ProtocolFailure <==> valid && end == ProtocolFailureRecorded)
    && (d == ToolFailure <==> !valid || (end == Recorded && toolError))
    && (d == Completed <==> valid && end == Recorded && !toolError)
  }

  /** The transaction of a call names its request. */
  predicate Names(t: Transaction, c: Context) {
    && t.requestId == c.id && t.operationId == c.request.operationId && t.attemptNumber == c.request.attemptNumber
    && t.routeSha == c.request.routeSha && t.requestSha == c.request.requestSha
    && t.requestBytes == c.request.requestBytes
  }

  /** The terminal receipt by which the journal grew. */
  predicate EndsCall(h: Hash, r: Recorder, r': Recorder, c: Context, d: Disposition, occurrence: Digest, at: Time) {
    && c.id in r.open && Appended(h, r, r', r.open[c.id].transaction, at)
    && var event := r'.receipts[|r.receipts|].body.event;
       && event.Terminal? && event.disposition == d && event.authorizationSha == r.open[c.id].authorizationSha
       && event.writeCalled == Some(c.wrote) && event.sdkOccurrence == Some(occurrence) && !event.recovered
  }

  lemma TerminalEndsCall(h: Hash, r: Recorder, c: Context, d: Disposition, occurrence: Digest, at: Time)
    ensures var out := Terminate(h, r, c.id, d, occurrence, c.wrote, at);
            out.Ok? ==> EndsCall(h, r, out.value, c, d, occurrence, at)
  {
    hide Terminate, Appended;
    TerminalHolds(h, r, c.id, d, occurrence, c.wrote, at);
  }

  lemma DispositionReported(s: State, end: SdkEnd)
    requires s.phase.Settled?
    ensures var (c, reply) := (s.phase.context, s.phase.reply);
            var d := DispositionOf(s, c, reply, end);
            && (end == EndThrows <==> d.None?)
            && (d.Some? ==> Reported(d.value, ValidAnswer(s, c.id, reply), reply.Resolved? && reply.message.hasError, end))
  {
  }

  /** A settled persisted call that returns: what it returns, and its terminal receipt. */
  lemma ReturnedDisposition(h: Hash, s: State, end: SdkEnd, occurrence: Digest, at: Time)
    requires s.phase.Settled?
    ensures var t := Complete(h, s, end, occurrence, at);
            var (c, reply) := (s.phase.context, s.phase.reply);
            && |t.finished| == |s.finished| + 1 && t.finished[..|s.finished|] == s.finished
            && t.phase == Idle && t.writes == s.writes && t.queue == s.queue
            && var f := t.finished[|s.finished|];
               && (f.Threw? ==> f.request == Some(c.id) && t.recorder == s.recorder)
               && (end == EndThrows || !c.persisted ==> f.Threw?)
               && (f.Returned? ==>
                     && f.id == c.id && (if reply.Resolved? then f.reply == Some(reply.message) else f.reply.None?)
                     && Reported(f.disposition, ValidAnswer(s, c.id, reply), reply.Resolved? && reply.message.hasError, end)
                     && EndsCall(h, s.recorder, t.recorder, c, f.disposition, occurrence, at))
  {
    hide Terminate, EndsCall, DispositionOf, Reported, ValidAnswer;
    var c := s.phase.context;
    var ended := s.(sdk := AfterEnd(s.sdk, end));
    DispositionReported(ended, end);
    SameAnswer(s, ended, c.id, s.phase.reply);
    var d := DispositionOf(ended, c, s.phase.reply, end);
    if d.Some? {
      TerminalEndsCall(h, s.recorder, c, d.value, occurrence, at);
    }
  }

  lemma SameAnswer(s: State, t: State, id: string, reply: Reply)
    requires t.failed == s.failed
    ensures ValidAnswer(s, id, reply) == ValidAnswer(t, id, reply)
  {
  }

  /** The authorization receipt by which the journal grew. */
  predicate StartsCall(h: Hash, r: Recorder, r': Recorder, c: Context, decision: Authority, at: Time) {
    && |r'.receipts| == |r.receipts| + 1 && r.receipts <= r'.receipts
    && Linked(h, r.header, r'.receipts, |r.receipts|)
    && var receipt := r'.receipts[|r.receipts|];
       && receipt.body.event == Authorization(decision) && receipt.body.observedAt == at
       && Names(receipt.body.transaction, c)
       && c.id in r'.open && r'.open[c.id].authorizationSha == receipt.sha
       && r'.open[c.id].transaction == receipt.body.transaction && r'.header == r.header
  }

  lemma AuthorizationStartsCall(h: Hash, r: Recorder, c: Context, decision: Authority, at: Time)
    ensures var out := Authorize(h, r, TransactionOf(c.id, c.request), decision, at);
            out.Ok? ==> StartsCall(h, r, out.value, c, decision, at)
  {
    hide Authorize, Linked;
    AuthorizationHolds(h, r, TransactionOf(c.id, c.request), decision, at);
  }

  /** A blocked operation that returns: both its receipts, and nothing is sent. */
  lemma BlockedReceipts(h: Hash, s: State, occurrence: Digest, authorizedAt: Time, endedAt: Time)
      returns (authorized: Recorder)
    requires s.phase.Deciding?
    ensures var t := Next(h, s, Decided(Censored(occurrence, authorizedAt, endedAt)));
            var c := s.phase.context;
            && t.writes == s.writes && t.phase == Idle && t.pending == s.pending
            && |t.finished| == |s.finished| + 1 && t.finished[..|s.finished|] == s.finished
            && var f := t.finished[|s.finished|];
               && (f.Threw? ==> f.request == Some(c.id))
               && (f.Returned? ==>
                     && f == Returned(c.id, Refused, None)
                     && StartsCall(h, s.recorder, authorized, c, Blocked, authorizedAt)
                     && EndsCall(h, authorized, t.recorder, c, Refused, occurrence, endedAt))
  {
    hide Authorize, Terminate, StartsCall, EndsCall;
    var c := s.phase.context;
    AuthorizationStartsCall(h, s.recorder, c, Blocked, authorizedAt);
    var out := Authorize(h, s.recorder, TransactionOf(c.id, c.request), Blocked, authorizedAt);
    authorized := if out.Ok? then out.value else s.recorder;
    if out.Ok? { TerminalEndsCall(h, authorized, c, Refused, occurrence, endedAt); }
  }

  /** A call that may go: it is written exactly if its envelope can be made, nothing else is pending, the
      child runs and takes it and the session record follows; its authorization is durable before. */
  lemma DispatchedLine(h: Hash, s: State, at: Time, writable: bool, appendOk: bool)
    requires s.phase.Deciding?
    ensures var t := Next(h, s, Decided(Dispatched(at, writable, appendOk)));
            var c := s.phase.context;
            var sendable := c.request.argumentsReadable && c.request.envelopeFits && s.pending.None?
                            && !s.exited && writable && (s.session ==> appendOk);
            && (t.recorder == s.recorder || StartsCall(h, s.recorder, t.recorder, c, Allowed, at))
            && (if t.recorder != s.recorder && sendable then
                  && t.writes == s.writes + [Written(ToolCall(c.id), |t.recorder.receipts|)]
                  && t.phase == Waiting(Context(c.id, c.request, true, true)) && t.pending == Some(c.id)
                else
                  && t.writes == s.writes && t.pending == s.pending
                  && t.phase == Settled(Context(c.id, c.request, c.persisted || t.recorder != s.recorder, c.wrote), Rejected))
            && t.finished == s.finished
  {
    hide Authorize, StartsCall;
    var c := s.phase.context;
    AuthorizationStartsCall(h, s.recorder, c, Allowed, at);
    var out := Authorize(h, s.recorder, TransactionOf(c.id, c.request), Allowed, at);
    if out.Ok? { Grown(h, s.recorder, out.value, c, at); }
  }

  lemma Grown(h: Hash, r: Recorder, r': Recorder, c: Context, at: Time)
    requires StartsCall(h, r, r', c, Allowed, at)
    ensures r' != r
  {
  }
}
