/** What each turn of the event loop does to the stdio proxy: messages of the child, timeouts, exits and
    interrupts settle the one exchange, and invocations start in the order they were queued
    (src/mcp-stdio-proxy.ts, src/mcp-adapter.ts). */
module StdioProxyTurns {
  import opened Common
  import opened StdioJournal
  import opened StdioRecorder
  import opened StdioProxy

  /** The proxy as it starts: nothing queued, running, pending, written or recorded, and open for invocations. */
  lemma NewStateHolds(session: bool, header: Header)
    ensures var s := NewState(session, header);
            && s.session == session && s.recorder.header == header && s.recorder.receipts == [] && s.recorder.open == map[]
            && !s.recorder.recovered && !s.recorder.finalized && s.sdk.NoAdapter? && s.queue == [] && s.phase == Idle
            && s.pending.None? && !s.exited && !s.failed && !s.closed && s.writes == [] && s.finished == [] && s.ending.None?
  {
  }

  /** Nothing of the journal, the SDK, the queue or the results changes. */
  predicate SameBooks(s: State, t: State) {
    && t.recorder == s.recorder && t.sdk == s.sdk && t.queue == s.queue && t.finished == s.finished
    && t.closed == s.closed && t.ending == s.ending && t.session == s.session
  }

  /** The exchange that was pending ended in this way: a waiting call settles, a discovery notes a rejection,
      and nothing is pending any more. */
  predicate ExchangeEnded(s: State, t: State, reply: Reply) {
    && t.pending.None?
    && (s.phase.Waiting? ==> t.phase == Settled(s.phase.context, reply))
    && (s.phase.Discovering? ==> t.phase == Discovering(s.phase.request, reply.Rejected?))
    && (!s.phase.Waiting? && !s.phase.Discovering? ==> t.phase == s.phase)
  }

  /** What was pending is rejected; if nothing was, nothing changes. */
  predicate PendingRejected(s: State, t: State) {
    if s.pending.Some? then ExchangeEnded(s, t, Rejected) else t.pending.None? && t.phase == s.phase
  }

  /** A reply under the pending id that holds a result or an error and not both. */
  predicate ProperReply(s: State, m: Message) {
    s.pending.Some? && m.version2 && m.id == s.pending && m.hasResult != m.hasError
  }

  /** A message of the child. With a session only a proper reply settles the exchange, and what the session
      does not know fails it; without one the first line settles it, whatever it is. */
  lemma MessageHolds(h: Hash, s: State, incoming: Incoming)
    ensures var t := Next(h, s, FromChild(incoming));
            && SameBooks(s, t) && t.exited == s.exited
            && (incoming == Ping && s.session ==>
                  t == s.(writes := s.writes + [Written(Notification, |s.recorder.receipts|)]))
            && (!(incoming == Ping && s.session) ==> t.writes == s.writes)
            && (s.session ==>
                  var accepted := match incoming
                                  case Response(m) => ProperReply(s, m)
                                  case Ping => true
                                  case CatalogChanged => true
                                  case Progress(acceptable) => acceptable
                                  case Unacceptable => false;
                  && (accepted && incoming.Response? ==>
                        t.failed == s.failed && ExchangeEnded(s, t, Resolved(incoming.message)))
                  && (accepted && !incoming.Response? ==> t.failed == s.failed && t.phase == s.phase && t.pending == s.pending)
                  && (!accepted ==> t.failed && PendingRejected(s, t)))
            && (!s.session ==>
                  && t.failed == s.failed
                  && (s.pending.None? ==> t == s)
                  && (s.pending.Some? ==>
                        ExchangeEnded(s, t, if incoming.Response? then Resolved(incoming.message) else Rejected)))
  {
    assert incoming.Response? || incoming.Ping? || incoming.CatalogChanged? || incoming.Progress? || incoming.Unacceptable?;
  }

  /** Timeouts, failed writes and the child's exit reject what is pending; only the exit is remembered. */
  lemma RejectionHolds(h: Hash, s: State, turn: Turn)
    requires turn.Timeout? || turn.WriteFailed? || turn.ChildExit?
    ensures var t := Next(h, s, turn);
            && SameBooks(s, t) && t.writes == s.writes && t.failed == s.failed
            && t.exited == (s.exited || turn.ChildExit?) && PendingRejected(s, t)
  {
  }

  /** An interrupt fails the session; the child is told of it exactly if an exchange of a call is pending in a
      session, the child runs and the session record follows. */
  lemma InterruptHolds(h: Hash, s: State, appendOk: bool)
    ensures var t := Next(h, s, Interrupt(appendOk));
            && SameBooks(s, t) && t.exited == s.exited && t.failed && PendingRejected(s, t)
            && t.writes == s.writes
                           + (if s.session && s.pending.Some? && (s.phase.Waiting? || s.phase.Settled?) && !s.exited && appendOk
                              then [Written(Notification, |s.recorder.receipts|)] else [])
  {
    assert s.writes + [] == s.writes;
  }

  /** An invocation over before its operation began: it is told of the failure, and the next may start. */
  predicate Dropped(s: State, t: State) {
    t.phase == Idle && t.finished == s.finished + [Threw(None)] && t.writes == s.writes && t.recorder == s.recorder && t.sdk == s.sdk
  }

  /** The call that starts: its context is new, nothing of it is recorded or written. */
  predicate Began(s: State, t: State, id: string, q: Request) {
    && t.phase == Deciding(Context(id, q, false, false)) && t.finished == s.finished && t.writes == s.writes
    && t.recorder == s.recorder && t.sdk == s.sdk && t.pending == s.pending
  }

  /** Invocations are queued until close, and the first starts when none runs: in a session with a discovery,
      otherwise at once, if the child runs; after a failure of the session none does. */
  lemma StartHolds(h: Hash, s: State, q: Request, id: string)
    ensures Next(h, s, Invoke(q)) == if s.closed then s else s.(queue := s.queue + [q])
    ensures var t := Next(h, s, Start(id));
            if s.phase != Idle || s.queue == [] then t == s
            else
              && t.queue == s.queue[1..] && t.failed == s.failed && t.exited == s.exited
              && (if s.failed then Dropped(s, t)
                  else if s.session then t == s.(queue := s.queue[1..], phase := Discovering(s.queue[0], false))
                  else if s.exited then Dropped(s, t)
                  else Began(s, t, id, s.queue[0]))
  {
  }

  /** A discovery: each of its exchanges is written if the child runs and takes it and the session record
      follows; once it returns the call starts, and if it throws, was rejected or the session failed, the
      session fails and the invocation is over. */
  lemma DiscoveryHolds(h: Hash, s: State, id: string, writable: bool, appendOk: bool)
    requires s.phase.Discovering?
    ensures var t := Next(h, s, ControlSent(id, writable, appendOk));
            if s.pending.Some? || s.phase.rejected then t == s
            else if s.exited || !writable || !appendOk then t == s.(phase := Discovering(s.phase.request, true))
            else t == s.(pending := Some(id), writes := s.writes + [Written(Control(id), |s.recorder.receipts|)])
    ensures var t := Next(h, s, DiscoverReturns(id));
            if s.pending.Some? then t == s
            else if s.failed || s.phase.rejected then t.failed && Dropped(s, t)
            else if s.exited then Dropped(s, t) && t.failed == s.failed
            else Began(s, t, id, s.phase.request) && t.failed == s.failed
    ensures var t := Next(h, s, DiscoverThrows);
            if s.pending.Some? then t == s else t.failed && Dropped(s, t)
  {
  }

  /** The SDK recorder over an operation: one is made for the first call that needs it, a censored operation
      ends at once, one that starts is open until its end is recorded, and one whose end throws stays open. */
  predicate SdkHolds(before: Sdk, after: Sdk, refused: bool, begun: int, ended: int) {
    if refused then after == before
    else
      && after.Adapter?
      && after.recorded == (if before.Adapter? then before.recorded else 0) + ended
      && after.open == (if before.Adapter? then before.open else 0) + begun
  }

  lemma BeginHolds(sdk: Sdk, begin: SdkBegin)
    ensures begin.BeginThrows? ==>
              SdkHolds(sdk, AfterBegin(sdk, begin), begin.fault == AdapterRefused, if begin.fault == LeftOpen then 1 else 0, 0)
    ensures begin.Censored? ==> SdkHolds(sdk, AfterBegin(sdk, begin), false, 0, 1)
    ensures begin.Dispatched? ==> SdkHolds(sdk, AfterBegin(sdk, begin), false, 1, 0)
  {
    if begin.BeginThrows? {
      var f := begin.fault;
      assert f.AdapterRefused? || f.NothingBegun? || f.LeftOpen?;
    }
  }

  lemma DecidedHolds(h: Hash, s: State, begin: SdkBegin)
    requires s.phase.Deciding?
    ensures var t := Next(h, s, Decided(begin));
            && (begin.BeginThrows? ==>
                  && t.phase == Idle && t.finished == s.finished + [Threw(Some(s.phase.context.id))] && t.writes == s.writes
                  && t.recorder == s.recorder
                  && SdkHolds(s.sdk, t.sdk, begin.fault == AdapterRefused, if begin.fault == LeftOpen then 1 else 0, 0))
            && (begin.Censored? ==> SdkHolds(s.sdk, t.sdk, false, 0, 1))
            && (begin.Dispatched? ==> SdkHolds(s.sdk, t.sdk, false, 1, 0))
  {
    hide Authorize, Terminate, SdkHolds, AfterBegin;
    BeginHolds(s.sdk, begin);
  }

  lemma EndedHolds(h: Hash, s: State, end: SdkEnd, occurrence: Digest, at: Time)
    requires s.phase.Settled? && s.sdk.Adapter? && s.sdk.open > 0
    ensures var t := Next(h, s, Continue(end, occurrence, at));
            if end == EndThrows then t.sdk == s.sdk else SdkHolds(s.sdk, t.sdk, false, -1, 1)
  {
    hide Terminate, DispositionOf;
  }

  /** Close asks the SDK recorder first: it refuses while an operation is open, or if none was recorded. */
  lemma CloseHolds(h: Hash, s: State, at: Time)
    ensures Next(h, s, Close) == s.(closed := true)
    ensures var t := Next(h, s, FinishClose(at));
            var ready := s.closed && s.ending.None? && s.phase == Idle && s.queue == [] && s.exited;
            && (!ready ==> t == s)
            && (ready && s.sdk.Adapter? && s.sdk.open > 0 ==> t == s.(ending := Some(SdkOpenOperations)))
            && (ready && s.sdk.Adapter? && s.sdk.open == 0 && s.sdk.recorded == 0 ==> t == s.(ending := Some(SdkEmptyBundle)))
            && (ready && (s.sdk.NoAdapter? || (s.sdk.open == 0 && s.sdk.recorded > 0)) ==>
                  var (r, out) := Finalize(h, s.recorder, [], [], at);
                  t == s.(recorder := r, ending := Some(if out.Ok? then Bundled(out.value) else AccessRefused(out.error))))
  {
    hide Finalize;
  }
}
