/** What close of the stdio proxy comes to: the SDK recorder finalizes before the access recorder does, and
    either can refuse (src/mcp-stdio-proxy.ts, src/sdk.ts). */
module StdioProxyClosing {
  import opened Common
  import opened StdioJournal
  import opened StdioRecorder
  import opened StdioRecovery
  import opened StdioProxy
  import opened StdioProxySafety

  // ----- what the SDK recorder holds -----

  /** An operation was begun for the current invocation and has not ended. */
  predicate Underway(p: Phase) { p.Waiting? || p.Settled? }

  /** No invocation that reached the adapter threw. */
  ghost predicate NoneThrew(s: State) { forall id :: Threw(Some(id)) !in s.finished }

  function One(b: bool): nat { if b then 1 else 0 }

  ghost predicate SdkExplained(s: State) {
    if s.sdk.NoAdapter? then !Underway(s.phase)
    else
      && (Underway(s.phase) ==> s.sdk.open >= 1)
      && (NoneThrew(s) ==> s.sdk.open == One(Underway(s.phase)) && s.sdk.recorded + s.sdk.open >= 1)
  }

  /** The access recorder is finalized by close alone. */
  ghost predicate SdkInv(s: State) {
    SdkExplained(s) && (s.recorder.finalized ==> s.ending.Some?)
  }

  /** Steps that leave the recorders and the finished invocations alone. */
  predicate SameAccounts(s: State, t: State) {
    && t.sdk == s.sdk && t.recorder == s.recorder && t.ending == s.ending && t.finished == s.finished
    && (Underway(t.phase) <==> Underway(s.phase))
  }

  lemma SameSdk(s: State, t: State)
    requires SdkInv(s) && SameAccounts(s, t)
    ensures SdkInv(t) && SdkInv(t.(finished := t.finished + [Threw(None)]))
  {
    var thrown := t.(finished := t.finished + [Threw(None)]);
    assert NoneThrew(thrown) ==> NoneThrew(s) by { NoneThrewBefore(s, thrown, Threw(None)); }
    assert NoneThrew(t) ==> NoneThrew(s);
  }

  lemma SmallSteps(s: State)
    ensures forall reply :: SameAccounts(s, Settle(s, reply))
    ensures SameAccounts(s, RejectPending(s)) && SameAccounts(s, FailSession(s))
    ensures forall line :: SameAccounts(s, Write(s, line))
    ensures FailSession(s).phase == RejectPending(s).phase
  {
  }

  lemma StartKeepsSdk(h: Hash, s: State, id: string)
    requires SdkInv(s)
    ensures SdkInv(StartNext(s, id))
  {
    hide SdkInv;
    if s.phase == Idle && s.queue != [] {
      SameSdk(s, s.(queue := s.queue[1..]));
      SameSdk(s, StartNext(s, id).(finished := s.finished));
    }
  }

  lemma DiscoveryKeepsSdk(s: State, id: Option<string>)
    requires SdkInv(s)
    ensures SdkInv(EndDiscovery(s, id))
  {
    hide SdkInv, FailSession;
    SmallSteps(s);
    if s.phase.Discovering? && s.pending.None? {
      SameSdk(s, FailSession(s).(phase := Idle));
      SameSdk(s, EndDiscovery(s, id).(finished := s.finished));
    }
  }

  lemma ControlKeepsSdk(s: State, id: string, writable: bool, appendOk: bool)
    requires SdkInv(s)
    ensures SdkInv(SendControl(s, id, writable, appendOk))
  {
    hide SdkInv;
    SameSdk(s, SendControl(s, id, writable, appendOk));
  }

  lemma MessageKeepsSdk(s: State, incoming: Incoming)
    requires SdkInv(s)
    ensures SdkInv(Receive(s, incoming))
  {
    hide SdkInv, Settle, RejectPending, FailSession, Write, Answers;
    SmallSteps(s);
    SameSdk(s, s);
    SameSdk(s, Receive(s, incoming));
  }

  lemma InterruptKeepsSdk(s: State, appendOk: bool)
    requires SdkInv(s)
    ensures SdkInv(InterruptNow(s, appendOk))
  {
    hide SdkInv, FailSession, Write;
    SmallSteps(s);
    SmallSteps(Write(s, Notification));
    SameSdk(s, InterruptNow(s, appendOk));
  }

  lemma PlainKeepsSdk(h: Hash, s: State, turn: Turn)
    requires SdkInv(s) && (turn.Invoke? || turn.Timeout? || turn.ChildExit? || turn.WriteFailed? || turn.Close?)
    ensures SdkInv(Next(h, s, turn))
  {
    hide SdkInv, RejectPending;
    SmallSteps(s);
    SmallSteps(s.(exited := true));
    SameSdk(s, Next(h, s, turn));
  }

  /** An invocation that throws at this point, whatever it left behind. */
  lemma ThrownExplains(s: State, id: string)
    requires Threw(Some(id)) in s.finished && !Underway(s.phase) && (s.recorder.finalized ==> s.ending.Some?)
    ensures SdkInv(s)
  {
  }

  lemma JournalKeepsFlag(h: Hash, r: Recorder, t: Transaction, decision: Authority, id: string, d: Disposition, o: Digest,
                         wrote: bool, at: Time)
    ensures var out := Authorize(h, r, t, decision, at); out.Ok? ==> out.value.finalized == r.finalized
    ensures var out := Terminate(h, r, id, d, o, wrote, at); out.Ok? ==> out.value.finalized == r.finalized
  {
    hide Accepted;
  }

  lemma BlockKeepsSdk(h: Hash, s: State, occurrence: Digest, authorizedAt: Time, endedAt: Time)
    requires s.phase.Deciding? && SdkInv(s)
    ensures SdkInv(Block(h, s.(sdk := AfterBegin(s.sdk, Censored(occurrence, authorizedAt, endedAt))), s.phase.context,
                         occurrence, authorizedAt, endedAt))
  {
    hide Authorize, Terminate;
    var begun := s.(sdk := AfterBegin(s.sdk, Censored(occurrence, authorizedAt, endedAt)));
    var c := s.phase.context;
    var t := TransactionOf(c.id, c.request);
    JournalKeepsFlag(h, s.recorder, t, Blocked, c.id, Refused, occurrence, c.wrote, authorizedAt);
    var next := Block(h, begun, c, occurrence, authorizedAt, endedAt);
    match Authorize(h, s.recorder, t, Blocked, authorizedAt)
    case Err(_) =>
      assert next.finished[|s.finished|] == Threw(Some(c.id));
      ThrownExplains(next, c.id);
    case Ok(authorized) =>
      JournalKeepsFlag(h, authorized, t, Blocked, c.id, Refused, occurrence, c.wrote, endedAt);
      match Terminate(h, authorized, c.id, Refused, occurrence, c.wrote, endedAt)
      case Err(_) =>
        assert next.finished[|s.finished|] == Threw(Some(c.id));
        ThrownExplains(next, c.id);
      case Ok(_) =>
        NoneThrewBefore(s, next, Returned(c.id, Refused, None));
  }

  lemma NoneThrewBefore(s: State, t: State, f: Finish)
    requires t.finished == s.finished + [f]
    ensures NoneThrew(t) ==> NoneThrew(s)
  {
    assert forall x :: x in s.finished ==> x in t.finished;
  }

  lemma DispatchKeepsSdk(h: Hash, s: State, at: Time, writable: bool, appendOk: bool)
    requires s.phase.Deciding? && SdkInv(s)
    ensures SdkInv(Dispatch(h, s.(sdk := AfterBegin(s.sdk, Dispatched(at, writable, appendOk))), s.phase.context, at,
                            writable, appendOk))
  {
    hide Authorize;
    var c := s.phase.context;
    var t := TransactionOf(c.id, c.request);
    JournalKeepsFlag(h, s.recorder, t, Allowed, c.id, Refused, 0, c.wrote, at);
    var next := Dispatch(h, s.(sdk := AfterBegin(s.sdk, Dispatched(at, writable, appendOk))), c, at, writable, appendOk);
    assert next.finished == s.finished && Underway(next.phase);
    assert NoneThrew(next) <==> NoneThrew(s);
  }

  lemma DecideKeepsSdk(h: Hash, s: State, begin: SdkBegin)
    requires SdkInv(s)
    ensures SdkInv(Decide(h, s, begin))
  {
    hide SdkInv, Block, Dispatch;
    if s.phase.Deciding? {
      match begin
      case BeginThrows(_) =>
        var t := Decide(h, s, begin);
        assert t.finished[|s.finished|] == Threw(Some(s.phase.context.id));
        FlagAgrees(s);
        ThrownExplains(t, s.phase.context.id);
      case Censored(occurrence, authorizedAt, endedAt) => BlockKeepsSdk(h, s, occurrence, authorizedAt, endedAt);
      case Dispatched(at, writable, appendOk) => DispatchKeepsSdk(h, s, at, writable, appendOk);
    }
  }

  lemma FlagAgrees(s: State)
    requires SdkInv(s)
    ensures s.recorder.finalized ==> s.ending.Some?
  {
  }

  lemma CompleteKeepsSdk(h: Hash, s: State, end: SdkEnd, occurrence: Digest, at: Time)
    requires SdkInv(s)
    ensures SdkInv(Complete(h, s, end, occurrence, at))
  {
    hide Terminate;
    if s.phase.Settled? {
      var c := s.phase.context;
      var counted := s.(sdk := AfterEnd(s.sdk, end));
      var d := DispositionOf(counted, c, s.phase.reply, end);
      var t := Complete(h, s, end, occurrence, at);
      JournalKeepsFlag(h, s.recorder, TransactionOf(c.id, c.request), Allowed, c.id, if d.Some? then d.value else Refused,
                       occurrence, c.wrote, at);
      if d.None? || !c.persisted || Terminate(h, s.recorder, c.id, d.value, occurrence, c.wrote, at).Err? {
        assert t.finished[|s.finished|] == Threw(Some(c.id));
        ThrownExplains(t, c.id);
      } else {
        NoneThrewBefore(s, t, t.finished[|s.finished|]);
      }
    }
  }

  lemma CloseKeepsSdk(h: Hash, s: State, at: Time)
    requires SdkInv(s)
    ensures SdkInv(FinishClosing(h, s, at))
  {
    hide Finalize;
    var t := FinishClosing(h, s, at);
    assert NoneThrew(t) <==> NoneThrew(s);
  }

  lemma {:induction false} RunKeepsSdk(h: Hash, s: State, turns: seq<Turn>)
    requires SdkInv(s)
    ensures SdkInv(Run(h, s, turns))
    decreases |turns|
  {
    hide SdkInv, Next;
    if turns != [] {
      NextKeepsSdk(h, s, turns[0]);
      RunKeepsSdk(h, Next(h, s, turns[0]), turns[1..]);
    }
  }

  lemma NextKeepsSdk(h: Hash, s: State, turn: Turn)
    requires SdkInv(s)
    ensures SdkInv(Next(h, s, turn))
  {
    hide SdkInv, Decide, Complete, FinishClosing, StartNext, SendControl, EndDiscovery, Receive, InterruptNow, RejectPending;
    match turn
    case Decided(begin) => DecideKeepsSdk(h, s, begin);
    case Continue(end, occurrence, at) => CompleteKeepsSdk(h, s, end, occurrence, at);
    case FinishClose(at) => CloseKeepsSdk(h, s, at);
    case Start(id) => StartKeepsSdk(h, s, id);
    case ControlSent(id, writable, appendOk) => ControlKeepsSdk(s, id, writable, appendOk);
    case DiscoverReturns(id) => DiscoveryKeepsSdk(s, Some(id));
    case DiscoverThrows => DiscoveryKeepsSdk(s, None);
    case FromChild(incoming) => MessageKeepsSdk(s, incoming);
    case Interrupt(appendOk) => InterruptKeepsSdk(s, appendOk);
    case _ => PlainKeepsSdk(h, s, turn);
  }

  // ----- closing -----

  /** Close has been called, all invocations are done, the child is gone. */
  predicate ReadyToClose(s: State) {
    s.closed && s.ending.None? && s.phase == Idle && s.queue == [] && s.exited
  }

  /** Close writes a verified access bundle exactly if the SDK recorder has no open operation and, once
      made, at least one ended one, no transaction is open, and the clock did not run backwards. What is
      open or missing was left by an invocation that threw. */
  lemma CloseVerifiesExactly(h: Hash, session: bool, header: Header, turns: seq<Turn>, at: Time)
    requires header.sha == h(HeaderContent(header.body)) && ReadyToClose(Run(h, NewState(session, header), turns))
    ensures var s := Run(h, NewState(session, header), turns);
            var ending := FinishClosing(h, s, at).ending;
            && ending.Some?
            && (ending.value.Bundled? <==>
                  && (s.sdk.Adapter? ==> s.sdk.open == 0 && s.sdk.recorded > 0)
                  && s.recorder.open == map[] && LastTime(s.recorder.header, s.recorder.receipts) <= at)
            && (ending.value.Bundled? ==> Verified(h, ending.value.bundle) && ending.value.bundle.receipts == s.recorder.receipts)
            && (forall id :: id in s.recorder.open ==> Threw(Some(id)) in s.finished)
            && (NoneThrew(s) ==> s.recorder.open == map[] && SdkRefusal(s.sdk).None?)
  {
    var s := Run(h, NewState(session, header), turns);
    NewStateInv(h, session, header);
    RunKeeps(h, NewState(session, header), turns);
    RunKeepsSdk(h, NewState(session, header), turns);
    hide Run, RecorderInv, WrittenOnce, FinishesClosed, WritesLogged;
    AccessFinalize(h, s.recorder, at);
    hide Finalize;
    assert forall id :: id in s.recorder.open ==> Threw(Some(id)) in s.finished;
  }

  lemma AccessFinalize(h: Hash, r: Recorder, at: Time)
    requires LiveJournal(h, r) && !r.finalized
    ensures Finalize(h, r, [], [], at).1.Ok? <==> r.open == map[] && LastTime(r.header, r.receipts) <= at
    ensures var out := Finalize(h, r, [], [], at).1; out.Ok? ==> Verified(h, out.value) && out.value.receipts == r.receipts
  {
    hide RecorderInv;
    if r.open == map[] && LastTime(r.header, r.receipts) <= at {
      SynthesizedNeedsFlag(h, r, at);
    }
    if Verified(h, FinalBundle(h, r, at)) { BundleNotEarly(h, r, at); }
    hide Verified;
  }

  lemma BundleNotEarly(h: Hash, r: Recorder, at: Time)
    requires Verified(h, FinalBundle(h, r, at))
    ensures LastTime(r.header, r.receipts) <= at
  {
    hide Accepted, OpenAfter, CountersFor, Synthesized;
    assert !FinalRaises(h, FinalBundle(h, r, at), FinalPrecedesReceipts);
  }

  // ----- two closes that write no bundle though no transaction is open -----

  /** One invocation is decided on and has ended; then the child exits and close is called. */
  ghost function CloseAfter(h: Hash, header: Header, q: Request, first: seq<Turn>, at: Time): State {
    Run(h, NewState(false, header), [Invoke(q), Start("a")] + first + [ChildExit, Close, FinishClose(at)])
  }

  lemma {:induction false} RunInParts(h: Hash, s: State, a: seq<Turn>, b: seq<Turn>)
    ensures Run(h, s, a + b) == Run(h, Run(h, s, a), b)
    decreases |a|
  {
    hide Next;
    if a == [] {
      assert a + b == b;
    } else {
      assert (a + b)[1..] == a[1..] + b;
      RunInParts(h, Next(h, s, a[0]), a[1..], b);
    }
  }

  lemma RunOne(h: Hash, s: State, a: Turn)
    ensures Run(h, s, [a]) == Next(h, s, a)
  {
    hide Next;
    var none: seq<Turn>, one: seq<Turn> := [], [a];
    assert one[1..] == none;
    assert Run(h, Next(h, s, a), none) == Next(h, s, a);
  }

  lemma RunTwo(h: Hash, s: State, a: Turn, b: Turn)
    ensures Run(h, s, [a, b]) == Next(h, Next(h, s, a), b)
  {
    hide Next;
    RunOne(h, Next(h, s, a), b);
    assert [a, b][1..] == [b];
  }

  lemma RunThree(h: Hash, s: State, a: Turn, b: Turn, c: Turn)
    ensures Run(h, s, [a, b, c]) == Next(h, Next(h, Next(h, s, a), b), c)
  {
    hide Next;
    assert [a, b, c][1..] == [b, c];
    RunTwo(h, Next(h, s, a), b, c);
  }

  lemma FirstCall(h: Hash, header: Header, q: Request)
    ensures Run(h, NewState(false, header), [Invoke(q), Start("a")]) == Begun(header, q)
  {
    hide NewRecorder;
    RunTwo(h, NewState(false, header), Invoke(q), Start("a"));
    assert [q][1..] == [];
  }

  function Begun(header: Header, q: Request): State {
    NewState(false, header).(phase := Deciding(Context("a", q, false, false)))
  }

  /** If nothing is pending then, the three last turns bring out what the SDK recorder refuses. */
  lemma RefusedClose(h: Hash, s: State, at: Time)
    requires s.phase == Idle && s.pending.None? && s.queue == [] && s.ending.None? && SdkRefusal(s.sdk).Some?
    ensures var t := Run(h, s, [ChildExit, Close, FinishClose(at)]);
            t.ending == SdkRefusal(s.sdk) && t.recorder == s.recorder
  {
    hide Finalize;
    RunThree(h, s, ChildExit, Close, FinishClose(at));
  }

  lemma CloseInParts(h: Hash, header: Header, q: Request, first: seq<Turn>, at: Time)
    ensures CloseAfter(h, header, q, first, at) == Run(h, Run(h, Begun(header, q), first), [ChildExit, Close, FinishClose(at)])
  {
    hide Run;
    RunInParts(h, NewState(false, header), [Invoke(q), Start("a")] + first, [ChildExit, Close, FinishClose(at)]);
    RunInParts(h, NewState(false, header), [Invoke(q), Start("a")], first);
    FirstCall(h, header, q);
  }

  /** The only invocation threw before its operation began: the SDK recorder exists and is empty. */
  lemma EmptySdkBlocksClose(h: Hash, header: Header, q: Request, at: Time)
    ensures var s := CloseAfter(h, header, q, [Decided(BeginThrows(NothingBegun))], at);
            s.recorder.open == map[] && s.ending == Some(SdkEmptyBundle)
  {
    hide Run, Finalize;
    CloseInParts(h, header, q, [Decided(BeginThrows(NothingBegun))], at);
    hide CloseAfter;
    var thrown := Next(h, Begun(header, q), Decided(BeginThrows(NothingBegun)));
    RefusedClose(h, thrown, at);
    RunOne(h, Begun(header, q), Decided(BeginThrows(NothingBegun)));
  }

  /** The journal refused the authorization of the only invocation, here because the clock ran backwards,
      and the SDK recorder could not record the failure either: no transaction is open, but one operation
      is. */
  lemma OpenOperationBlocksClose(h: Hash, header: Header, q: Request, early: Time, at: Time)
    requires early < header.body.createdAt
    ensures var s := CloseAfter(h, header, q, [Decided(Dispatched(early, true, true)), Continue(EndThrows, 0, early)], at);
            s.recorder.open == map[] && s.ending == Some(SdkOpenOperations)
  {
    var (decided, ended) := (Decided(Dispatched(early, true, true)), Continue(EndThrows, 0, early));
    EarlyAuthorizationRefused(h, header, TransactionOf("a", q), early);
    hide Authorize, Run, Finalize, Terminate;
    CloseInParts(h, header, q, [decided, ended], at);
    RunTwo(h, Begun(header, q), decided, ended);
    hide CloseAfter;
    var refused := Next(h, Begun(header, q), decided);
    assert refused.phase == Settled(Context("a", q, false, false), Rejected) && refused.sdk == Adapter(0, 1);
    RefusedClose(h, Next(h, refused, ended), at);
  }

  lemma EarlyAuthorizationRefused(h: Hash, header: Header, t: Transaction, early: Time)
    requires early < header.body.createdAt
    ensures Authorize(h, NewRecorder(header), t, Allowed, early).Err?
  {
    var r := NewRecorder(header);
    var candidate := r.receipts + [NextReceipt(h, header, r.receipts, t, Authorization(Allowed), early)];
    hide WellFormed, OpenAfter;
    assert candidate[..0] == [];
    assert Raises(h, header, candidate, 0, TimestampRegressed);
    assert !Clean(h, header, candidate, 0);
    assert !Accepted(h, header, candidate);
  }
}
