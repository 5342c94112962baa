/** What every run of the stdio proxy keeps: it logs before it acts. */
module StdioProxySafety {
  import opened Common
  import opened StdioJournal
  import opened StdioRecorder
  import opened StdioRecovery
  import opened StdioCounters
  import opened StdioProxy

  // ----- the journal as the proxy uses it -----

  /** The journal holds an authorization of id with the given decision among its first n receipts. */
  predicate Logged(receipts: seq<Receipt>, n: nat, id: string, decision: Authority) {
    exists i :: 0 <= i < n && i < |receipts|
             && receipts[i].IsAuthorization() && receipts[i].Id() == id && receipts[i].body.event.decision == decision
  }

  predicate EndedAs(receipts: seq<Receipt>, id: string, disposition: Disposition) {
    exists i :: 0 <= i < |receipts|
             && receipts[i].IsTerminal() && receipts[i].Id() == id && receipts[i].body.event.disposition == disposition
  }

  ghost predicate LiveJournal(h: Hash, r: Recorder) {
    RecorderInv(h, r) && !r.recovered && !Synthesized(r.receipts)
  }

  lemma LoggedGrows(receipts: seq<Receipt>, grown: seq<Receipt>, n: nat, id: string, decision: Authority)
    requires receipts <= grown && Logged(receipts, n, id, decision)
    ensures Logged(grown, n, id, decision)
  {
    var i :| 0 <= i < n && i < |receipts|
             && receipts[i].IsAuthorization() && receipts[i].Id() == id && receipts[i].body.event.decision == decision;
    assert grown[i] == receipts[i];
  }

  lemma EndedGrows(receipts: seq<Receipt>, grown: seq<Receipt>, id: string, disposition: Disposition)
    requires receipts <= grown && EndedAs(receipts, id, disposition)
    ensures EndedAs(grown, id, disposition)
  {
    var i :| 0 <= i < |receipts|
             && receipts[i].IsTerminal() && receipts[i].Id() == id && receipts[i].body.event.disposition == disposition;
    assert grown[i] == receipts[i];
  }

  /** What a recorded authorization means for the journal. */
  lemma AuthorizeLogs(h: Hash, r: Recorder, t: Transaction, decision: Authority, at: Time)
    requires LiveJournal(h, r)
    ensures var out := Authorize(h, r, t, decision, at);
            out.Ok? ==>
              && LiveJournal(h, out.value) && out.value.header == r.header && r.receipts <= out.value.receipts
              && Logged(out.value.receipts, |out.value.receipts|, t.requestId, decision)
              && t.requestId !in r.open
              && (forall d :: !Logged(r.receipts, |r.receipts|, t.requestId, d))
              && out.value.open.Keys == r.open.Keys + {t.requestId}
              && out.value.open[t.requestId].decision == decision
  {
    hide Accepted, Append, OpenView, Used, Synthesized, Logged;
    var out := Authorize(h, r, t, decision, at);
    if out.Ok? {
      FreshIsUnlogged(r, t.requestId);
      DoKeeps(h, r, AuthorizeCall(t, decision, at));
      AuthorizedReceipt(h, r, t, decision, at);
    }
  }

  lemma FreshIsUnlogged(r: Recorder, id: string)
    ensures !Used(r, id) ==> forall d :: !Logged(r.receipts, |r.receipts|, id, d)
  {
  }

  lemma AuthorizedReceipt(h: Hash, r: Recorder, t: Transaction, decision: Authority, at: Time)
    requires !Synthesized(r.receipts) && Authorize(h, r, t, decision, at).Ok?
    ensures var receipts := Authorize(h, r, t, decision, at).value.receipts;
            && r.receipts <= receipts && !Synthesized(receipts)
            && Logged(receipts, |receipts|, t.requestId, decision)
    ensures var open := Authorize(h, r, t, decision, at).value.open;
            && t.requestId !in r.open && open.Keys == r.open.Keys + {t.requestId}
            && open[t.requestId].decision == decision
  {
    hide Accepted;
    var receipts := Authorize(h, r, t, decision, at).value.receipts;
    var receipt := NextReceipt(h, r.header, r.receipts, t, Authorization(decision), at);
    assert receipts == r.receipts + [receipt];
    SynthesizedStep(r.receipts, receipt);
    hide Synthesized;
    assert receipts[|r.receipts|] == receipt;
  }

  /** What a recorded terminal means for the journal. */
  lemma TerminateLogs(h: Hash, r: Recorder, id: string, d: Disposition, occurrence: Digest, wrote: bool, at: Time)
    requires LiveJournal(h, r)
    ensures var out := Terminate(h, r, id, d, occurrence, wrote, at);
            out.Ok? ==>
              && LiveJournal(h, out.value) && out.value.header == r.header && r.receipts <= out.value.receipts
              && EndedAs(out.value.receipts, id, d)
              && out.value.open == r.open - {id}
  {
    var out := Terminate(h, r, id, d, occurrence, wrote, at);
    if out.Ok? {
      DoKeeps(h, r, TerminalCall(id, d, occurrence, wrote, at));
      OpenIsAccepted(h, r, id);
      var active := r.open[id];
      var receipt := NextReceipt(h, r.header, r.receipts, active.transaction,
                                 Terminal(active.authorizationSha, d, Some(wrote), Some(occurrence), false), at);
      assert out.value.receipts == r.receipts + [receipt];
      hide RecorderInv, Append;
      SynthesizedStep(r.receipts, receipt);
      assert out.value.receipts[|r.receipts|] == receipt;
    }
  }

  // ----- the invariant -----

  predicate Threads(s: State) {
    match s.phase
    case Idle => s.pending.None?
    case Discovering(_, _) => true
    case Deciding(c) => s.pending.None? && !c.persisted && !c.wrote
    case Waiting(c) => s.pending == Some(c.id) && c.persisted && c.wrote
    case Settled(c, reply) => s.pending.None? && (reply.Resolved? ==> c.wrote) && (c.wrote ==> c.persisted)
  }

  predicate HasContext(p: Phase) { p.Deciding? || p.Waiting? || p.Settled? }

  predicate CurrentOpen(s: State) {
    HasContext(s.phase) && s.phase.context.persisted ==>
      s.phase.context.id in s.recorder.open && s.recorder.open[s.phase.context.id].decision == Allowed
  }

  predicate Current(s: State, id: string) {
    HasContext(s.phase) && s.phase.context.persisted && s.phase.context.id == id
  }

  /** An open transaction is the current one or was left by an invocation that threw. */
  ghost predicate OpenExplained(s: State) {
    forall id :: id in s.recorder.open ==> Current(s, id) || Threw(Some(id)) in s.finished
  }

  ghost predicate WritesLogged(s: State) {
    forall k {:trigger s.writes[k]} :: 0 <= k < |s.writes| ==>
      && s.writes[k].durable <= |s.recorder.receipts|
      && (s.writes[k].line.ToolCall? ==> Logged(s.recorder.receipts, s.writes[k].durable, s.writes[k].line.id, Allowed))
  }

  ghost predicate WrittenOnce(s: State) {
    forall j, k {:trigger s.writes[j], s.writes[k]} :: 0 <= j < k < |s.writes| && s.writes[j].line.ToolCall? ==>
      s.writes[k].line != s.writes[j].line
  }

  predicate RightReply(f: Finish) {
    f.Returned? && f.disposition == Completed ==>
      f.reply.Some? && Answers(f.reply.value, f.id) && f.reply.value.hasResult
  }

  ghost predicate FinishesClosed(s: State) {
    forall k {:trigger s.finished[k]} :: 0 <= k < |s.finished| && s.finished[k].Returned? ==>
      && RightReply(s.finished[k])
      && EndedAs(s.recorder.receipts, s.finished[k].id, s.finished[k].disposition)
  }

  ghost predicate ProxyInv(h: Hash, s: State) {
    && LiveJournal(h, s.recorder)
    && Threads(s) && CurrentOpen(s) && OpenExplained(s)
    && WritesLogged(s) && WrittenOnce(s) && FinishesClosed(s)
  }

  // ----- every turn keeps it -----

  /** Turns that leave journal, writes of tool calls and returned results alone. */
  lemma QuietTurnKeeps(h: Hash, s: State, t: State)
    requires ProxyInv(h, s) && Threads(t)
    requires t.recorder == s.recorder && t.finished == s.finished
    requires t.writes == s.writes || (|t.writes| == |s.writes| + 1 && t.writes[..|s.writes|] == s.writes
                                      && !t.writes[|s.writes|].line.ToolCall?
                                      && t.writes[|s.writes|].durable == |s.recorder.receipts|)
    requires HasContext(t.phase) && t.phase.context.persisted ==> Current(s, t.phase.context.id)
    requires HasContext(s.phase) && s.phase.context.persisted ==> Current(t, s.phase.context.id)
    ensures ProxyInv(h, t)
  {
    hide LiveJournal, Logged, EndedAs, RightReply;
    forall k | 0 <= k < |s.writes|
      ensures t.writes[k] == s.writes[k]
    {
      assert t.writes[k] == t.writes[..|s.writes|][k];
    }
  }

  lemma ThrowKeeps(h: Hash, s: State, id: Option<string>)
    requires ProxyInv(h, s) && s.pending.None?
    requires HasContext(s.phase) && s.phase.context.persisted ==> id == Some(s.phase.context.id)
    ensures ProxyInv(h, ThrowOut(s, id))
  {
    hide LiveJournal, Logged, EndedAs, RightReply;
    var t := ThrowOut(s, id);
    forall x | x in t.recorder.open
      ensures Threw(Some(x)) in t.finished
    {
      assert Current(s, x) || Threw(Some(x)) in s.finished;
      assert t.finished[|s.finished|] == Threw(id);
    }
    forall k | 0 <= k < |t.finished| && t.finished[k].Returned?
      ensures t.finished[k] == s.finished[k]
    {
    }
  }

  lemma SettleKeeps(h: Hash, s: State, reply: Reply)
    requires ProxyInv(h, s) && s.pending.Some?
    ensures ProxyInv(h, Settle(s, reply))
  {
    hide LiveJournal, OpenExplained, WritesLogged, WrittenOnce, FinishesClosed, CurrentOpen;
    QuietTurnKeeps(h, s, Settle(s, reply));
  }

  lemma FailKeeps(h: Hash, s: State)
    requires ProxyInv(h, s)
    ensures ProxyInv(h, FailSession(s)) && ProxyInv(h, RejectPending(s))
    ensures FailSession(s).pending.None? && FailSession(s).recorder == s.recorder
    ensures s.phase.Discovering? ==> FailSession(s).phase.Discovering?
  {
    hide LiveJournal, OpenExplained, WritesLogged, WrittenOnce, FinishesClosed, CurrentOpen;
    QuietTurnKeeps(h, s, s.(failed := true));
    if s.pending.Some? {
      SettleKeeps(h, s, Rejected);
      SettleKeeps(h, s.(failed := true), Rejected);
    }
  }

  lemma NotifyKeeps(h: Hash, s: State)
    requires ProxyInv(h, s)
    ensures ProxyInv(h, Write(s, Notification))
  {
    hide LiveJournal, OpenExplained, WritesLogged, WrittenOnce, FinishesClosed, CurrentOpen;
    QuietTurnKeeps(h, s, Write(s, Notification));
  }

  lemma BeginCallKeeps(h: Hash, s: State, request: Request, id: string)
    requires ProxyInv(h, s) && s.pending.None? && !HasContext(s.phase)
    ensures ProxyInv(h, BeginCall(s, request, id))
  {
    hide LiveJournal, OpenExplained, WritesLogged, WrittenOnce, FinishesClosed, CurrentOpen;
    if s.exited {
      ThrowKeeps(h, s, None);
    } else {
      QuietTurnKeeps(h, s, BeginCall(s, request, id));
    }
  }

  lemma StartKeeps(h: Hash, s: State, id: string)
    requires ProxyInv(h, s)
    ensures ProxyInv(h, StartNext(s, id))
  {
    hide LiveJournal, OpenExplained, WritesLogged, WrittenOnce, FinishesClosed, CurrentOpen;
    if s.phase == Idle && s.queue != [] {
      var next := s.(queue := s.queue[1..]);
      QuietTurnKeeps(h, s, next);
      if s.failed {
        ThrowKeeps(h, next, None);
      } else if s.session {
        QuietTurnKeeps(h, s, StartNext(s, id));
      } else {
        BeginCallKeeps(h, next, s.queue[0], id);
      }
    }
  }

  lemma DiscoveryKeeps(h: Hash, s: State, turn: Turn)
    requires ProxyInv(h, s) && (turn.ControlSent? || turn.DiscoverReturns? || turn.DiscoverThrows?)
    ensures ProxyInv(h, Next(h, s, turn))
  {
    hide LiveJournal, OpenExplained, WritesLogged, WrittenOnce, FinishesClosed, CurrentOpen;
    if s.phase.Discovering? && s.pending.None? {
      if turn.ControlSent? {
        QuietTurnKeeps(h, s, Next(h, s, turn));
      } else if turn.DiscoverReturns? && !s.failed && !s.phase.rejected {
        BeginCallKeeps(h, s, s.phase.request, turn.id);
      } else {
        FailKeeps(h, s);
        ThrowKeeps(h, FailSession(s), None);
      }
    }
  }

  lemma ReceiveKeeps(h: Hash, s: State, incoming: Incoming)
    requires ProxyInv(h, s)
    ensures ProxyInv(h, Receive(s, incoming))
  {
    FailKeeps(h, s);
    NotifyKeeps(h, s);
    hide LiveJournal, OpenExplained, WritesLogged, WrittenOnce, FinishesClosed, CurrentOpen, FailSession, RejectPending;
    if s.pending.Some? && incoming.Response? {
      SettleKeeps(h, s, Resolved(incoming.message));
    }
  }

  /** Replacing the journal by a longer one keeps what was logged and ended. */
  lemma JournalGrows(h: Hash, s: State, r: Recorder)
    requires ProxyInv(h, s) && s.recorder.receipts <= r.receipts
    ensures WritesLogged(s.(recorder := r)) && FinishesClosed(s.(recorder := r))
  {
    hide LiveJournal, Logged, EndedAs, RightReply;
    var t := s.(recorder := r);
    forall k | 0 <= k < |s.writes| && s.writes[k].line.ToolCall?
      ensures Logged(r.receipts, s.writes[k].durable, s.writes[k].line.id, Allowed)
    {
      LoggedGrows(s.recorder.receipts, r.receipts, s.writes[k].durable, s.writes[k].line.id, Allowed);
    }
    forall k | 0 <= k < |s.finished| && s.finished[k].Returned?
      ensures EndedAs(r.receipts, s.finished[k].id, s.finished[k].disposition)
    {
      EndedGrows(s.recorder.receipts, r.receipts, s.finished[k].id, s.finished[k].disposition);
    }
  }

  /** An invocation that returns: its transaction ended as reported. */
  lemma ReturnKeeps(h: Hash, s: State, r: Recorder, f: Finish)
    requires ProxyInv(h, s) && HasContext(s.phase) && !s.phase.Waiting?
    requires f.Returned? && RightReply(f) && f.id == s.phase.context.id
    requires LiveJournal(h, r) && s.recorder.receipts <= r.receipts
    requires EndedAs(r.receipts, f.id, f.disposition)
    requires r.open.Keys == s.recorder.open.Keys - {f.id}
    ensures ProxyInv(h, s.(recorder := r, phase := Idle, finished := s.finished + [f]))
  {
    JournalGrows(h, s, r);
    hide LiveJournal, Logged, EndedAs, RightReply;
    var t := s.(recorder := r, phase := Idle, finished := s.finished + [f]);
    forall x | x in t.recorder.open
      ensures Threw(Some(x)) in t.finished
    {
      assert x in s.recorder.open;
    }
    forall k | 0 <= k < |t.finished| && t.finished[k].Returned?
      ensures RightReply(t.finished[k]) && EndedAs(r.receipts, t.finished[k].id, t.finished[k].disposition)
    {
      if k < |s.finished| {
        assert s.(recorder := r).finished[k] == t.finished[k];
      }
    }
    assert WritesLogged(s.(recorder := r));
  }

  /** The journal took an authorization of the current call. */
  lemma AuthorizedKeeps(h: Hash, s: State, r: Recorder, phase: Phase)
    requires ProxyInv(h, s) && s.phase.Deciding?
    requires LiveJournal(h, r) && s.recorder.receipts <= r.receipts
    requires r.open.Keys == s.recorder.open.Keys + {s.phase.context.id}
    requires forall id :: id in s.recorder.open ==> id != s.phase.context.id
    requires phase.Settled? && phase.context == s.phase.context.(persisted := true) && phase.reply == Rejected
    requires r.open[s.phase.context.id].decision == Allowed
    ensures ProxyInv(h, s.(recorder := r, phase := phase))
  {
    JournalGrows(h, s, r);
    hide LiveJournal, Logged, EndedAs, RightReply;
    assert WritesLogged(s.(recorder := r)) && FinishesClosed(s.(recorder := r));
  }

  lemma BlockKeeps(h: Hash, s: State, occurrence: Digest, authorizedAt: Time, endedAt: Time)
    requires ProxyInv(h, s) && s.phase.Deciding?
    ensures ProxyInv(h, Block(h, s, s.phase.context, occurrence, authorizedAt, endedAt))
  {
    hide Authorize, Terminate, OpenExplained, WritesLogged, WrittenOnce, FinishesClosed, RecorderInv;
    var c := s.phase.context;
    var t := TransactionOf(c.id, c.request);
    AuthorizeLogs(h, s.recorder, t, Blocked, authorizedAt);
    match Authorize(h, s.recorder, t, Blocked, authorizedAt)
    case Err(_) => ThrowKeeps(h, s, Some(c.id));
    case Ok(authorized) =>
      TerminateLogs(h, authorized, c.id, Refused, occurrence, c.wrote, endedAt);
      match Terminate(h, authorized, c.id, Refused, occurrence, c.wrote, endedAt)
      case Err(_) => ThrowWithOpenKeeps(h, s, authorized);
      case Ok(done) =>
        hide LiveJournal;
        assert s.recorder.receipts <= done.receipts;
        assert done.open.Keys == s.recorder.open.Keys - {c.id};
        ReturnKeeps(h, s, done, Returned(c.id, Refused, None));
  }

  lemma ThrowWithOpenKeeps(h: Hash, s: State, r: Recorder)
    requires ProxyInv(h, s) && s.phase.Deciding?
    requires LiveJournal(h, r) && s.recorder.receipts <= r.receipts
    requires r.open.Keys == s.recorder.open.Keys + {s.phase.context.id}
    ensures ProxyInv(h, ThrowOut(s.(recorder := r), Some(s.phase.context.id)))
  {
    JournalGrows(h, s, r);
    hide LiveJournal, Logged, EndedAs, RightReply;
    var id := s.phase.context.id;
    var t := ThrowOut(s.(recorder := r), Some(id));
    assert WritesLogged(s.(recorder := r)) && FinishesClosed(s.(recorder := r));
    assert t.finished[|s.finished|] == Threw(Some(id));
    forall x | x in t.recorder.open
      ensures Threw(Some(x)) in t.finished
    {
      assert x == id || x in s.recorder.open;
    }
    forall k | 0 <= k < |t.finished| && t.finished[k].Returned?
      ensures RightReply(t.finished[k]) && EndedAs(r.receipts, t.finished[k].id, t.finished[k].disposition)
    {
      assert s.(recorder := r).finished[k] == t.finished[k];
    }
  }

  /** The authorized call is written: it was never written before, and it is logged now. */
  lemma WriteCallKeeps(h: Hash, s: State, c: Context)
    requires ProxyInv(h, s) && s.phase.Settled? && s.phase.context == c && s.phase.reply == Rejected
    requires c.persisted && !c.wrote
    requires Logged(s.recorder.receipts, |s.recorder.receipts|, c.id, Allowed)
    requires forall k {:trigger s.writes[k]} :: 0 <= k < |s.writes| ==> s.writes[k].line != ToolCall(c.id)
    ensures ProxyInv(h, Write(s.(pending := Some(c.id), phase := Waiting(c.(wrote := true))), ToolCall(c.id)))
  {
    hide LiveJournal, Logged, EndedAs, RightReply;
    var t := Write(s.(pending := Some(c.id), phase := Waiting(c.(wrote := true))), ToolCall(c.id));
    forall k | 0 <= k < |t.writes|
      ensures t.writes[k] == if k < |s.writes| then s.writes[k] else Written(ToolCall(c.id), |s.recorder.receipts|)
    {
    }
  }

  lemma DispatchKeeps(h: Hash, s: State, at: Time, writable: bool, appendOk: bool)
    requires ProxyInv(h, s) && s.phase.Deciding?
    ensures ProxyInv(h, Dispatch(h, s, s.phase.context, at, writable, appendOk))
  {
    hide Authorize, OpenExplained, WrittenOnce, FinishesClosed, RecorderInv, Logged;
    var c := s.phase.context;
    var t := TransactionOf(c.id, c.request);
    AuthorizeLogs(h, s.recorder, t, Allowed, at);
    match Authorize(h, s.recorder, t, Allowed, at)
    case Err(_) =>
      hide LiveJournal;
      QuietTurnKeeps(h, s, s.(phase := Settled(c, Rejected)));
    case Ok(authorized) =>
      hide LiveJournal;
      NotWritten(h, s, c.id);
      var allowed := c.(persisted := true);
      var refused := s.(recorder := authorized, phase := Settled(allowed, Rejected));
      AuthorizedKeeps(h, s, authorized, Settled(allowed, Rejected));
      hide WritesLogged;
      if Dispatch(h, s, c, at, writable, appendOk) != refused {
        WriteCallKeeps(h, refused, allowed);
      }
  }

  lemma NotWritten(h: Hash, s: State, id: string)
    requires WritesLogged(s) && !Logged(s.recorder.receipts, |s.recorder.receipts|, id, Allowed)
    ensures forall k {:trigger s.writes[k]} :: 0 <= k < |s.writes| ==> s.writes[k].line != ToolCall(id)
  {
  }

  lemma CompleteKeeps(h: Hash, given: State, end: SdkEnd, occurrence: Digest, at: Time)
    requires ProxyInv(h, given)
    ensures ProxyInv(h, Complete(h, given, end, occurrence, at))
  {
    hide Terminate, OpenExplained, WrittenOnce, FinishesClosed, WritesLogged, LiveJournal, CurrentOpen;
    if given.phase.Settled? {
      var s := given.(sdk := AfterEnd(given.sdk, end));
      QuietTurnKeeps(h, given, s);
      var c := s.phase.context;
      var d := DispositionOf(s, c, s.phase.reply, end);
      if d.None? || !c.persisted {
        ThrowKeeps(h, s, Some(c.id));
      } else {
        TerminateLogs(h, s.recorder, c.id, d.value, occurrence, c.wrote, at);
        match Terminate(h, s.recorder, c.id, d.value, occurrence, c.wrote, at)
        case Err(_) => ThrowKeeps(h, s, Some(c.id));
        case Ok(done) =>
          var reply := if s.phase.reply.Resolved? then Some(s.phase.reply.message) else None;
          ReturnKeeps(h, s, done, Returned(c.id, d.value, reply));
      }
    }
  }

  lemma CloseKeeps(h: Hash, s: State, at: Time)
    requires ProxyInv(h, s)
    ensures ProxyInv(h, FinishClosing(h, s, at))
  {
    hide OpenExplained, WrittenOnce, FinishesClosed, WritesLogged, RecorderInv, Verified;
    var t := FinishClosing(h, s, at);
    if t.recorder == s.recorder {
      hide LiveJournal, CurrentOpen;
      QuietTurnKeeps(h, s, t);
    } else {
      DoKeeps(h, s.recorder, FinalizeCall(at));
      JournalGrows(h, s, t.recorder);
      assert OpenExplained(t) by { SameOpen(s, t); }
      assert WrittenOnce(t) by { SameWrites(s, t); }
      assert WritesLogged(s.(recorder := t.recorder)) && FinishesClosed(s.(recorder := t.recorder));
      SameLogs(s.(recorder := t.recorder), t);
    }
  }

  lemma SameLogs(s: State, t: State)
    requires WritesLogged(s) && FinishesClosed(s) && t.recorder == s.recorder && t.writes == s.writes && t.finished == s.finished
    ensures WritesLogged(t) && FinishesClosed(t)
  {
    hide Logged, EndedAs, RightReply;
  }

  lemma SameOpen(s: State, t: State)
    requires OpenExplained(s) && t.recorder.open == s.recorder.open && t.phase == s.phase && t.finished == s.finished
    ensures OpenExplained(t)
  {
  }

  lemma SameWrites(s: State, t: State)
    requires WrittenOnce(s) && t.writes == s.writes
    ensures WrittenOnce(t)
  {
  }

  lemma NextKeeps(h: Hash, s: State, turn: Turn)
    requires ProxyInv(h, s)
    ensures ProxyInv(h, Next(h, s, turn))
  {
    hide LiveJournal, OpenExplained, WritesLogged, WrittenOnce, FinishesClosed, CurrentOpen, Dispatch, Block;
    match turn
    case Invoke(request) => QuietTurnKeeps(h, s, Next(h, s, turn));
    case Start(id) => StartKeeps(h, s, id);
    case ControlSent(_, _, _) => DiscoveryKeeps(h, s, turn);
    case DiscoverReturns(_) => DiscoveryKeeps(h, s, turn);
    case DiscoverThrows => DiscoveryKeeps(h, s, turn);
    case Decided(begin) =>
      if s.phase.Deciding? {
        var counted := s.(sdk := AfterBegin(s.sdk, begin));
        QuietTurnKeeps(h, s, counted);
        match begin
        case BeginThrows(_) => ThrowKeeps(h, counted, Some(s.phase.context.id));
        case Censored(occurrence, authorizedAt, endedAt) => BlockKeeps(h, counted, occurrence, authorizedAt, endedAt);
        case Dispatched(at, writable, appendOk) => DispatchKeeps(h, counted, at, writable, appendOk);
      }
    case FromChild(incoming) => ReceiveKeeps(h, s, incoming);
    case Timeout => FailKeeps(h, s);
    case ChildExit =>
      QuietTurnKeeps(h, s, s.(exited := true));
      FailKeeps(h, s.(exited := true));
    case WriteFailed => FailKeeps(h, s);
    case Interrupt(appendOk) =>
      NotifyKeeps(h, s);
      FailKeeps(h, s);
      FailKeeps(h, Write(s, Notification));
    case Continue(end, occurrence, at) => CompleteKeeps(h, s, end, occurrence, at);
    case Close => QuietTurnKeeps(h, s, Next(h, s, turn));
    case FinishClose(at) => CloseKeeps(h, s, at);
  }

  lemma NewStateInv(h: Hash, session: bool, header: Header)
    requires header.sha == h(HeaderContent(header.body))
    ensures ProxyInv(h, NewState(session, header))
  {
  }

  lemma {:induction false} RunKeeps(h: Hash, s: State, turns: seq<Turn>)
    requires ProxyInv(h, s)
    ensures ProxyInv(h, Run(h, s, turns))
    decreases |turns|
  {
    hide ProxyInv, Next;
    if turns != [] {
      NextKeeps(h, s, turns[0]);
      RunKeeps(h, Next(h, s, turns[0]), turns[1..]);
    }
  }

  // ----- what that means -----

  lemma LoggedMeansUnique(h: Hash, header: Header, receipts: seq<Receipt>, n: nat, id: string)
    requires Accepted(h, header, receipts)
    requires Logged(receipts, |receipts|, id, Allowed)
    ensures !Logged(receipts, |receipts|, id, Blocked)
  {
    if Logged(receipts, |receipts|, id, Blocked) {
      var i :| 0 <= i < |receipts| && receipts[i].IsAuthorization() && receipts[i].Id() == id
               && receipts[i].body.event.decision == Allowed;
      var j :| 0 <= j < |receipts| && receipts[j].IsAuthorization() && receipts[j].Id() == id
               && receipts[j].body.event.decision == Blocked;
      AuthorizedOnce(h, header, receipts, if i < j then i else j, if i < j then j else i);
    }
  }

  lemma AuthorizedOnce(h: Hash, header: Header, receipts: seq<Receipt>, i: nat, j: nat)
    requires Accepted(h, header, receipts) && i < j < |receipts|
    requires receipts[i].IsAuthorization() && receipts[j].IsAuthorization()
    ensures receipts[i].Id() != receipts[j].Id()
  {
    hide WellFormed, OpenAfter;
    assert Clean(h, header, receipts, j);
    assert !Raises(h, header, receipts, j, RequestIdReused);
  }

  /** In every run: a tools/call line reaches the child only after the allowed authorization for its
      request is durable, at most once, and never for a request that was blocked. */
  lemma LogBeforeAct(h: Hash, session: bool, header: Header, turns: seq<Turn>, k: nat)
    requires header.sha == h(HeaderContent(header.body))
    requires var s := Run(h, NewState(session, header), turns);
             k < |s.writes| && s.writes[k].line.ToolCall?
    ensures var s := Run(h, NewState(session, header), turns);
            var id := s.writes[k].line.id;
            && s.writes[k].durable <= |s.recorder.receipts|
            && Logged(s.recorder.receipts, s.writes[k].durable, id, Allowed)
            && !Logged(s.recorder.receipts, |s.recorder.receipts|, id, Blocked)
            && forall j :: 0 <= j < |s.writes| && s.writes[j].line == ToolCall(id) ==> j == k
  {
    var s := Run(h, NewState(session, header), turns);
    NewStateInv(h, session, header);
    RunKeeps(h, NewState(session, header), turns);
    var id := s.writes[k].line.id;
    assert WritesLogged(s);
    hide Run, Logged, Accepted;
    LoggedWhole(s.recorder.receipts, s.writes[k].durable, id);
    LoggedMeansUnique(h, s.recorder.header, s.recorder.receipts, 0, id);
  }

  lemma LoggedWhole(receipts: seq<Receipt>, n: nat, id: string)
    requires Logged(receipts, n, id, Allowed)
    ensures Logged(receipts, |receipts|, id, Allowed)
  {
  }

  /** In every run, an invocation that returned has ended its transaction with the disposition it
      returned, and a completed one rests on a reply carrying its own id. */
  lemma ReturnedIsClosed(h: Hash, session: bool, header: Header, turns: seq<Turn>, k: nat)
    requires header.sha == h(HeaderContent(header.body))
    requires var s := Run(h, NewState(session, header), turns);
             k < |s.finished| && s.finished[k].Returned?
    ensures var s := Run(h, NewState(session, header), turns);
            var f := s.finished[k];
            && EndedAs(s.recorder.receipts, f.id, f.disposition)
            && (f.disposition == Completed ==> f.reply.Some? && f.reply.value.id == Some(f.id) && f.reply.value.hasResult)
  {
    NewStateInv(h, session, header);
    RunKeeps(h, NewState(session, header), turns);
    hide Run;
  }

  /** At most one exchange is pending: when an authorized call reaches the child nothing else waits, so
      the refusal of a concurrent exchange, and that of a second authorization of a call, never occur. */
  lemma OneExchangeAtATime(h: Hash, session: bool, header: Header, turns: seq<Turn>)
    requires header.sha == h(HeaderContent(header.body))
    ensures var s := Run(h, NewState(session, header), turns);
            && (s.phase.Deciding? ==> s.pending.None? && !s.phase.context.persisted)
            && (s.phase.Waiting? <==> s.pending.Some? && !s.phase.Discovering?)
            && (s.phase.Waiting? ==> s.pending == Some(s.phase.context.id))
  {
    NewStateInv(h, session, header);
    RunKeeps(h, NewState(session, header), turns);
    hide Run;
  }

  /** The journal never refuses the end of a call for what it says, only for its clock: whatever the
      child, the timers and the SDK do, a persisted call whose end the SDK records returns. */
  lemma PersistedCallReturns(h: Hash, s: State, end: SdkEnd, occurrence: Digest, at: Time)
    requires ProxyInv(h, s) && s.phase.Settled? && s.phase.context.persisted && !s.recorder.finalized
    requires end != EndThrows && LastTime(s.recorder.header, s.recorder.receipts) <= at
    requires |s.recorder.receipts| <= MAX_SAFE_INTEGER
    ensures var t := Complete(h, s, end, occurrence, at);
            && |t.finished| == |s.finished| + 1
            && t.finished[|s.finished|].Returned? && t.finished[|s.finished|].id == s.phase.context.id
            && s.phase.context.id !in t.recorder.open
  {
    hide OpenExplained, WrittenOnce, FinishesClosed, WritesLogged, RecorderInv, Synthesized, Terminate, Logged, EndedAs;
    var c := s.phase.context;
    var d := DispositionOf(s, c, s.phase.reply, end).value;
    TerminateExactly(h, s.recorder, c.id, d, occurrence, c.wrote, at);
    TerminateLogs(h, s.recorder, c.id, d, occurrence, c.wrote, at);
  }
}
