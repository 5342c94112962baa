/** Live runs, crashes at any durable append, and recovery of the stdio journal. */
module StdioRecovery {
  import opened Common
  import opened StdioJournal
  import opened StdioRecorder

  // ----- one append -----

  lemma AuthorizedBefore(receipts: seq<Receipt>, r: Receipt, id: string)
    ensures Authorized(receipts + [r], |receipts|, id) <==> Authorized(receipts, |receipts|, id)
  {
    var grown := receipts + [r];
    assert forall i :: 0 <= i < |receipts| ==> grown[i] == receipts[i];
    if Authorized(receipts, |receipts|, id) {
      var i :| 0 <= i < |receipts| && receipts[i].IsAuthorization() && receipts[i].Id() == id;
      assert grown[i].IsAuthorization();
    }
  }

  /** What an appended receipt can still be refused for, once its ids are valid. */
  lemma AppendOutcome(h: Hash, r: Recorder, t: Transaction, event: Event, at: Time)
    requires RecorderInv(h, r) && ValidTransaction(t)
    requires event.Authorization? ==> !Authorized(r.receipts, |r.receipts|, t.requestId)
    requires event.Terminal? ==>
               && t.requestId in r.open && t == r.open[t.requestId].transaction
               && event.authorizationSha == r.open[t.requestId].authorizationSha
    ensures var receipt := NextReceipt(h, r.header, r.receipts, t, event, at);
            Append(h, r, t, event, at).Ok? <==>
              && LastTime(r.header, r.receipts) <= at
              && |r.receipts| <= MAX_SAFE_INTEGER
              && (event.Terminal? ==>
                    forall issue :: !TerminalRaises(OpenAfter(r.receipts, |r.receipts|), receipt, issue))
  {
    hide Accepted, Authorized, OpenAfter, StableId;
    var receipt := NextReceipt(h, r.header, r.receipts, t, event, at);
    var grown := r.receipts + [receipt];
    var n := |r.receipts|;
    AcceptedExtends(h, r.header, r.receipts, receipt);
    assert grown[..n] == r.receipts && grown[n] == receipt;
    OpenOfPrefix(grown, n, n);
    AuthorizedBefore(r.receipts, receipt, t.requestId);
    assert WellFormed(receipt) <==> n <= MAX_SAFE_INTEGER;
    forall issue
      ensures ChainRaises(h, r.header, grown, n, issue) <==>
                issue == TimestampRegressed && at < LastTime(r.header, r.receipts)
    {
    }
    forall issue
      ensures EventRaises(grown, n, issue) <==>
                event.Terminal? && TerminalRaises(OpenAfter(r.receipts, n), receipt, issue)
    {
    }
    hide ChainRaises, EventRaises, TerminalRaises, WellFormed;
    if Clean(h, r.header, grown, n) {
      assert !Raises(h, r.header, grown, n, TimestampRegressed);
      if event.Terminal? {
        forall issue
          ensures !TerminalRaises(OpenAfter(r.receipts, n), receipt, issue)
        {
          assert !Raises(h, r.header, grown, n, issue);
        }
      }
    }
  }

  lemma OpenIsAccepted(h: Hash, r: Recorder, id: string)
    requires RecorderInv(h, r) && id in r.open
    ensures ValidTransaction(r.open[id].transaction) && r.open[id].transaction.requestId == id
    ensures id in OpenAfter(r.receipts, |r.receipts|) && r.open[id] == AsOpen(OpenAfter(r.receipts, |r.receipts|)[id])
  {
    hide Raises, StableId;
    var auth := OpenAfter(r.receipts, |r.receipts|)[id];
    assert r.receipts[..|r.receipts|] == r.receipts;
    var i :| 0 <= i < |r.receipts| && r.receipts[i] == auth;
    assert Clean(h, r.header, r.receipts, i);
  }

  lemma AppendKeeps(h: Hash, r: Recorder, t: Transaction, event: Event, at: Time)
    requires RecorderInv(h, r) && Append(h, r, t, event, at).Ok?
    ensures var next := Append(h, r, t, event, at).value;
            && Accepted(h, r.header, next.receipts)
            && next == r.(receipts := next.receipts)
            && next.receipts == r.receipts + [NextReceipt(h, r.header, r.receipts, t, event, at)]
            && OpenView(next.receipts) ==
                 if event.Authorization? then r.open[t.requestId := OpenTransaction(t, next.receipts[|r.receipts|].sha, event.decision)]
                 else r.open - {t.requestId}
  {
    hide Accepted, OpenView, OpenAfter, Binds;
    var receipt := NextReceipt(h, r.header, r.receipts, t, event, at);
    OpenViewStep(r.receipts, receipt);
    TerminalIsBound(h, r.header, r.receipts + [receipt], |r.receipts|);
    assert (r.receipts + [receipt])[..|r.receipts|] == r.receipts;
    OpenOfPrefix(r.receipts + [receipt], |r.receipts|, |r.receipts|);
  }

  /** A fresh, valid authorization is recorded exactly when the clock did not run backwards. */
  lemma AuthorizeExactly(h: Hash, r: Recorder, t: Transaction, decision: Authority, at: Time)
    requires RecorderInv(h, r) && !r.finalized && !r.recovered && ValidTransaction(t) && !Used(r, t.requestId)
    ensures Authorize(h, r, t, decision, at).Ok? <==>
              LastTime(r.header, r.receipts) <= at && |r.receipts| <= MAX_SAFE_INTEGER
  {
    hide RecorderInv, Append;
    AppendOutcome(h, r, t, Authorization(decision), at);
  }

  /** A matching terminal is recorded exactly when, besides, completion and identity mismatch are
      only claimed after a write to the child. */
  lemma TerminateExactly(h: Hash, r: Recorder, id: string, disposition: Disposition, occurrence: Digest, wrote: bool, at: Time)
    requires RecorderInv(h, r) && !r.finalized && !r.recovered && id in r.open
    ensures Terminate(h, r, id, disposition, occurrence, wrote, at).Ok? <==>
              && (r.open[id].decision == Blocked <==> disposition == Refused)
              && !(r.open[id].decision == Blocked && wrote)
              && disposition != InterruptedUnknown
              && (disposition in {Completed, IdentityMismatch} ==> wrote)
              && LastTime(r.header, r.receipts) <= at && |r.receipts| <= MAX_SAFE_INTEGER
  {
    var active := r.open[id];
    var event := Terminal(active.authorizationSha, disposition, Some(wrote), Some(occurrence), false);
    OpenIsAccepted(h, r, id);
    hide RecorderInv, Append, OpenAfter;
    AppendOutcome(h, r, active.transaction, event, at);
    var receipt := NextReceipt(h, r.header, r.receipts, active.transaction, event, at);
    var open := OpenAfter(r.receipts, |r.receipts|);
    if (active.decision == Blocked) == (disposition == Refused) && !(active.decision == Blocked && wrote) {
      assert TerminalRaises(open, receipt, RecoveryShapeInvalid) <==> disposition == InterruptedUnknown;
      assert TerminalRaises(open, receipt, CompletedWithoutWrite) <==>
             disposition in {Completed, IdentityMismatch} && !wrote;
      forall issue
        ensures TerminalRaises(open, receipt, issue) ==> issue == RecoveryShapeInvalid || issue == CompletedWithoutWrite
      {
      }
    }
  }

  // ----- live runs -----

  lemma DoKeeps(h: Hash, r: Recorder, call: Call)
    requires RecorderInv(h, r) && !r.recovered
    ensures RecorderInv(h, Do(h, r, call)) && !Do(h, r, call).recovered && Do(h, r, call).header == r.header
    ensures r.receipts <= Do(h, r, call).receipts
  {
    hide Accepted, Append, Verified, OpenView;
    match call
    case AuthorizeCall(t, decision, at) =>
      if Append(h, r, t, Authorization(decision), at).Ok? {
        AppendKeeps(h, r, t, Authorization(decision), at);
      }
    case TerminalCall(id, disposition, occurrence, wrote, at) =>
      if id in r.open {
        var active := r.open[id];
        var event := Terminal(active.authorizationSha, disposition, Some(wrote), Some(occurrence), false);
        OpenIsAccepted(h, r, id);
        if Append(h, r, active.transaction, event, at).Ok? {
          AppendKeeps(h, r, active.transaction, event, at);
        }
      }
    case FinalizeCall(at) =>
  }

  lemma {:induction false} PlayKeeps(h: Hash, r: Recorder, calls: seq<Call>)
    requires RecorderInv(h, r) && !r.recovered
    ensures RecorderInv(h, Play(h, r, calls)) && Play(h, r, calls).header == r.header
    decreases |calls|
  {
    hide RecorderInv, Do;
    if calls != [] {
      DoKeeps(h, r, calls[0]);
      PlayKeeps(h, Do(h, r, calls[0]), calls[1..]);
    }
  }

  // ----- recovery -----

  predicate NonDecreasing(from: Time, times: seq<Time>)
    decreases |times|
  {
    times != [] ==> from <= times[0] && NonDecreasing(times[0], times[1..])
  }

  predicate NoRepeats(ids: seq<string>) {
    forall i, j :: 0 <= i < j < |ids| ==> ids[i] != ids[j]
  }

  /** Receipt r says that nothing is known about how transaction id ended. */
  predicate IsInterruption(r: Receipt, id: string) {
    && r.Id() == id
    && r.IsTerminal()
    && r.body.event.disposition == InterruptedUnknown
    && r.body.event.recovered
  }

  /** From index `from` on, the receipts interrupt the given transactions, in order. */
  ghost predicate InterruptsOnly(receipts: seq<Receipt>, from: nat, ids: seq<string>)
    requires from + |ids| == |receipts|
  {
    forall i :: 0 <= i < |ids| ==> IsInterruption(receipts[from + i], ids[i])
  }

  lemma InterruptAccepted(h: Hash, r: Recorder, id: string, at: Time)
    requires RecorderInv(h, r) && id in r.open
    requires LastTime(r.header, r.receipts) <= at && |r.receipts| <= MAX_SAFE_INTEGER
    ensures Append(h, r, r.open[id].transaction, Interruption(r.open[id]), at).Ok?
  {
    var event := Interruption(r.open[id]);
    OpenIsAccepted(h, r, id);
    hide RecorderInv, Append, OpenAfter;
    AppendOutcome(h, r, r.open[id].transaction, event, at);
  }

  /** Journal q is p and then one interruption for each of ids, all of them open in p. */
  ghost predicate ExtendsByInterruptions(p: seq<Receipt>, q: seq<Receipt>, ids: seq<string>) {
    && |q| == |p| + |ids|
    && q[..|p|] == p
    && InterruptsOnly(q, |p|, ids)
    && NoRepeats(ids)
    && (forall id :: id in ids ==> id in OpenView(p))
    && OpenView(q) == OpenView(p) - (set id | id in ids)
  }

  lemma ExtensionLength(p: seq<Receipt>, q: seq<Receipt>, ids: seq<string>)
    requires ExtendsByInterruptions(p, q, ids)
    ensures |q| == |p| + |ids|
  {
  }

  lemma InterruptionsCompose(p: seq<Receipt>, q: seq<Receipt>, s: seq<Receipt>, a: seq<string>, b: seq<string>)
    requires |q| == |p| + |a| && |s| == |q| + |b| && s[..|q|] == q
    requires InterruptsOnly(q, |p|, a) && InterruptsOnly(s, |q|, b)
    ensures InterruptsOnly(s, |p|, a + b)
  {
    forall i | 0 <= i < |a + b|
      ensures IsInterruption(s[|p| + i], (a + b)[i])
    {
      if i < |a| {
        assert s[|p| + i] == s[..|q|][|p| + i];
      } else {
        assert s[|p| + i] == s[|q| + (i - |a|)];
      }
    }
  }

  lemma ExtensionsCompose(p: seq<Receipt>, q: seq<Receipt>, s: seq<Receipt>, a: seq<string>, b: seq<string>)
    requires ExtendsByInterruptions(p, q, a) && ExtendsByInterruptions(q, s, b)
    ensures ExtendsByInterruptions(p, s, a + b)
  {
    InterruptionsCompose(p, q, s, a, b);
    hide OpenView, InterruptsOnly;
    assert s[..|p|] == q[..|p|];
    DisjointJoin(OpenView(p), a, b);
  }

  lemma DisjointJoin<T>(open: map<string, T>, a: seq<string>, b: seq<string>)
    requires NoRepeats(a) && NoRepeats(b)
    requires forall id :: id in a ==> id in open
    requires forall id :: id in b ==> id in open - (set x | x in a)
    ensures NoRepeats(a + b) && forall id :: id in a + b ==> id in open
    ensures open - (set x | x in a) - (set x | x in b) == open - (set x | x in a + b)
  {
    forall i, j | 0 <= i < j < |a + b|
      ensures (a + b)[i] != (a + b)[j]
    {
      if i < |a| && j >= |a| {
        assert a[i] in a && b[j - |a|] in b;
      }
    }
    assert (set x | x in a + b) == (set x | x in a) + (set x | x in b);
  }

  lemma CloseOne(h: Hash, r: Recorder, id: string, at: Time)
    requires RecorderInv(h, r) && id in r.open
    requires LastTime(r.header, r.receipts) <= at && |r.receipts| <= MAX_SAFE_INTEGER
    ensures var out := Append(h, r, r.open[id].transaction, Interruption(r.open[id]), at);
            && out.Ok? && out.value.open == r.open
            && var next := out.value.(open := r.open - {id});
            && RecorderInv(h, next)
            && next == r.(receipts := next.receipts, open := next.open)
            && ExtendsByInterruptions(r.receipts, next.receipts, [id])
            && LastTime(r.header, next.receipts) == at
  {
    var t, event := r.open[id].transaction, Interruption(r.open[id]);
    OpenIsAccepted(h, r, id);
    InterruptAccepted(h, r, id, at);
    AppendKeeps(h, r, t, event, at);
    hide Accepted, Append, OpenView, StableId;
    var next := Append(h, r, t, event, at).value;
    assert next.receipts[..|r.receipts|] == r.receipts;
    assert IsInterruption(next.receipts[|r.receipts|], id);
    assert (set x | x in [id]) == {id};
  }

  /** Recorder `closed` is r with every transaction of order interrupted, the last at the last reading. */
  ghost predicate Closes(h: Hash, r: Recorder, closed: Recorder, order: seq<string>, readings: seq<Time>) {
    && RecorderInv(h, closed)
    && closed == r.(receipts := closed.receipts, open := closed.open)
    && ExtendsByInterruptions(r.receipts, closed.receipts, order)
    && LastTime(r.header, closed.receipts) == if readings == [] then LastTime(r.header, r.receipts) else readings[|readings| - 1]
  }

  lemma ClosesAfterOne(h: Hash, r: Recorder, next: Recorder, closed: Recorder, order: seq<string>, readings: seq<Time>)
    requires |order| == |readings| > 0
    requires next == r.(receipts := next.receipts, open := next.open)
    requires ExtendsByInterruptions(r.receipts, next.receipts, [order[0]])
    requires LastTime(r.header, next.receipts) == readings[0]
    requires Closes(h, next, closed, order[1..], readings[1..])
    ensures Closes(h, r, closed, order, readings)
  {
    hide RecorderInv, ExtendsByInterruptions, LastTime;
    ExtensionsCompose(r.receipts, next.receipts, closed.receipts, [order[0]], order[1..]);
    assert [order[0]] + order[1..] == order;
    assert |readings| > 1 ==> readings[1..][|readings| - 2] == readings[|readings| - 1];
  }

  lemma CloseOpenStep(h: Hash, r: Recorder, order: seq<string>, readings: seq<Time>)
    requires |order| == |readings| > 0 && order[0] in r.open
    ensures var out := Append(h, r, r.open[order[0]].transaction, Interruption(r.open[order[0]]), readings[0]);
            out.Ok? ==> CloseOpen(h, r, order, readings) ==
                          CloseOpen(h, out.value.(open := out.value.open - {order[0]}), order[1..], readings[1..])
  {
    hide Append;
  }

  /** Closing any distinct open ids in any order with an orderly clock never fails, touches nothing
      recorded before, and adds exactly one interruption for each. */
  lemma {:induction false} CloseOpenSucceeds(h: Hash, r: Recorder, order: seq<string>, readings: seq<Time>)
    requires RecorderInv(h, r)
    requires |order| == |readings| && NoRepeats(order) && (forall id :: id in order ==> id in r.open)
    requires NonDecreasing(LastTime(r.header, r.receipts), readings)
    requires |r.receipts| + |order| <= MAX_SAFE_INTEGER
    ensures CloseOpen(h, r, order, readings).1.None?
    ensures Closes(h, r, CloseOpen(h, r, order, readings).0, order, readings)
    decreases |order|
  {
    if order == [] {
      assert r.receipts[..|r.receipts|] == r.receipts;
    } else {
      hide Closes;
      var id, at := order[0], readings[0];
      CloseOne(h, r, id, at);
      hide RecorderInv, Append, LastTime, CloseOpen, ExtendsByInterruptions;
      var next := Append(h, r, r.open[id].transaction, Interruption(r.open[id]), at).value.(open := r.open - {id});
      ExtensionLength(r.receipts, next.receipts, [id]);
      forall x | x in order[1..]
        ensures x in next.open
      {
        var i :| 0 <= i < |order| - 1 && order[1..][i] == x;
        assert order[0] != order[i + 1];
      }
      CloseOpenSucceeds(h, next, order[1..], readings[1..]);
      CloseOpenStep(h, r, order, readings);
      hide NonDecreasing, NoRepeats;
      ClosesAfterOne(h, r, next, CloseOpen(h, next, order[1..], readings[1..]).0, order, readings);
    }
  }

  /** One interrupted recovery: the ids its finalize closed before the process died, and the clock
      readings it took for them. */
  datatype Recovery = Recovery(closed: seq<string>, readings: seq<Time>)

  ghost predicate Orderly(header: Header, journal: seq<Receipt>, attempt: Recovery) {
    && |attempt.closed| == |attempt.readings|
    && NoRepeats(attempt.closed)
    && (forall id :: id in attempt.closed ==> id in OpenView(journal))
    && NonDecreasing(LastTime(header, journal), attempt.readings)
  }

  ghost function AfterRecovery(h: Hash, header: Header, journal: seq<Receipt>, attempt: Recovery): seq<Receipt>
    requires Orderly(header, journal, attempt)
  {
    match Recover(h, header, journal, false, false)
    case Err(_) => journal
    case Ok(r) => CloseOpen(h, r, attempt.closed, attempt.readings).0.receipts
  }

  /** Any number of recoveries, each cut off after some of its appends. */
  ghost predicate RecoveriesOrderly(h: Hash, header: Header, journal: seq<Receipt>, attempts: seq<Recovery>)
    decreases |attempts|
  {
    attempts != [] ==>
      && Orderly(header, journal, attempts[0])
      && RecoveriesOrderly(h, header, AfterRecovery(h, header, journal, attempts[0]), attempts[1..])
  }

  ghost function AfterRecoveries(h: Hash, header: Header, journal: seq<Receipt>, attempts: seq<Recovery>): seq<Receipt>
    requires RecoveriesOrderly(h, header, journal, attempts)
    decreases |attempts|
  {
    if attempts == [] then journal
    else AfterRecoveries(h, header, AfterRecovery(h, header, journal, attempts[0]), attempts[1..])
  }

  /** Everything the attempts closed, in order. */
  function AllClosed(attempts: seq<Recovery>): seq<string> {
    if attempts == [] then [] else attempts[0].closed + AllClosed(attempts[1..])
  }

  lemma RecoveryExtends(h: Hash, header: Header, journal: seq<Receipt>, attempt: Recovery)
    requires Accepted(h, header, journal) && Orderly(header, journal, attempt)
    requires |journal| + |attempt.closed| <= MAX_SAFE_INTEGER
    ensures var q := AfterRecovery(h, header, journal, attempt);
            && Accepted(h, header, q) && ExtendsByInterruptions(journal, q, attempt.closed)
            && LastTime(header, q) == if attempt.readings == [] then LastTime(header, journal)
                                      else attempt.readings[|attempt.readings| - 1]
  {
    hide Accepted, InterruptsOnly, OpenView;
    var r := Recover(h, header, journal, false, false).value;
    CloseOpenSucceeds(h, r, attempt.closed, attempt.readings);
  }

  lemma {:induction false} RecoveriesExtend(h: Hash, header: Header, journal: seq<Receipt>, attempts: seq<Recovery>)
    requires Accepted(h, header, journal) && RecoveriesOrderly(h, header, journal, attempts)
    requires |journal| + |AllClosed(attempts)| <= MAX_SAFE_INTEGER
    ensures var q := AfterRecoveries(h, header, journal, attempts);
            Accepted(h, header, q) && ExtendsByInterruptions(journal, q, AllClosed(attempts))
    decreases |attempts|
  {
    hide Accepted, Orderly, OpenView, AfterRecovery;
    if attempts == [] {
      assert journal[..|journal|] == journal;
    } else {
      RecoveryExtends(h, header, journal, attempts[0]);
      var q := AfterRecovery(h, header, journal, attempts[0]);
      hide ExtendsByInterruptions;
      ExtensionLength(journal, q, attempts[0].closed);
      RecoveriesExtend(h, header, q, attempts[1..]);
      ExtensionsCompose(journal, q, AfterRecoveries(h, header, q, attempts[1..]), attempts[0].closed, AllClosed(attempts[1..]));
    }
  }

  lemma SynthesizedNeedsFlag(h: Hash, r: Recorder, finalizedAt: Time)
    requires RecorderInv(h, r) && r.open == map[]
    requires LastTime(r.header, r.receipts) <= finalizedAt
    requires r.recovered || !Synthesized(r.receipts)
    ensures Verified(h, FinalBundle(h, r, finalizedAt))
  {
    hide Accepted, OpenAfter, CountersFor, Synthesized;
    var open := OpenAfter(r.receipts, |r.receipts|);
    assert forall id :: id in open ==> id in OpenView(r.receipts);
  }

  /** Crash anywhere: cut the journal of any live run at any durable append, all of which come before its
      bundle is written, interrupt any number of recoveries at any of their appends, then recover and
      finalize with an orderly clock. The bundle keeps the durable prefix, adds exactly one interruption
      for each transaction open in it and nothing else, and the verifier accepts it. */
  lemma CrashAnywhere(h: Hash, header: Header, calls: seq<Call>, cut: nat,
                      attempts: seq<Recovery>, last: Recovery, finalizedAt: Time)
    requires header.sha == h(HeaderContent(header.body))
    requires cut <= |Play(h, NewRecorder(header), calls).receipts|
    requires var durable := Play(h, NewRecorder(header), calls).receipts[..cut];
             && RecoveriesOrderly(h, header, durable, attempts)
             && var journal := AfterRecoveries(h, header, durable, attempts);
             && Orderly(header, journal, last)
             && OpenView(journal).Keys == (set id | id in last.closed)
             && NonDecreasing(LastTime(header, journal), last.readings + [finalizedAt])
             && |durable| + |AllClosed(attempts)| + |last.closed| <= MAX_SAFE_INTEGER
    ensures var durable := Play(h, NewRecorder(header), calls).receipts[..cut];
            var journal := AfterRecoveries(h, header, durable, attempts);
            var recovered := Recover(h, header, journal, false, false);
            && recovered.Ok?
            && var out := Finalize(h, recovered.value, last.closed, last.readings, finalizedAt).1;
            && out.Ok?
            && Verified(h, out.value)
            && ExtendsByInterruptions(durable, out.value.receipts, AllClosed(attempts) + last.closed)
            && (set id | id in AllClosed(attempts) + last.closed) == OpenView(durable).Keys
            && out.value.finalization.body.recoveryPerformed
  {
    var final := Play(h, NewRecorder(header), calls);
    var durable := final.receipts[..cut];
    assert RecorderInv(h, NewRecorder(header));
    PlayKeeps(h, NewRecorder(header), calls);
    AcceptedIsPrefixClosed(h, header, final.receipts, cut);
    hide Play, Orderly, Accepted;
    RecoveriesExtend(h, header, durable, attempts);
    hide OpenView;
    FinishRecovery(h, header, durable, AfterRecoveries(h, header, durable, attempts), AllClosed(attempts), last, finalizedAt);
  }

  lemma FinishRecovery(h: Hash, header: Header, durable: seq<Receipt>, journal: seq<Receipt>, done: seq<string>,
                       last: Recovery, finalizedAt: Time)
    requires Accepted(h, header, journal) && ExtendsByInterruptions(durable, journal, done)
    requires Orderly(header, journal, last)
    requires OpenView(journal).Keys == (set id | id in last.closed)
    requires NonDecreasing(LastTime(header, journal), last.readings + [finalizedAt])
    requires |journal| + |last.closed| <= MAX_SAFE_INTEGER
    ensures var recovered := Recover(h, header, journal, false, false);
            && recovered.Ok?
            && var out := Finalize(h, recovered.value, last.closed, last.readings, finalizedAt).1;
            && out.Ok?
            && Verified(h, out.value)
            && ExtendsByInterruptions(durable, out.value.receipts, done + last.closed)
            && (set id | id in done + last.closed) == OpenView(durable).Keys
            && out.value.finalization.body.recoveryPerformed
  {
    hide Accepted, OpenView, InterruptsOnly;
    var r := Recover(h, header, journal, false, false).value;
    CloseOpenSucceeds(h, r, last.closed, last.readings);
    var closed := CloseOpen(h, r, last.closed, last.readings).0;
    assert closed.open == map[];
    LastOfNonDecreasing(LastTime(header, journal), last.readings, finalizedAt);
    SynthesizedNeedsFlag(h, closed, finalizedAt);
    hide Verified, NonDecreasing;
    ExtensionsCompose(durable, journal, closed.receipts, done, last.closed);
    AllOfBoth(OpenView(durable), OpenView(journal), done, last.closed);
    hide CloseOpen;
  }

  lemma AllOfBoth<T>(durable: map<string, T>, journal: map<string, T>, done: seq<string>, closed: seq<string>)
    requires journal == durable - (set id | id in done) && journal.Keys == (set id | id in closed)
    requires forall id :: id in done ==> id in durable
    ensures (set id | id in done + closed) == durable.Keys
  {
    assert (set id | id in done + closed) == (set id | id in done) + (set id | id in closed);
  }

  lemma {:induction false} LastOfNonDecreasing(from: Time, times: seq<Time>, end: Time)
    requires NonDecreasing(from, times + [end])
    ensures (if times == [] then from else times[|times| - 1]) <= end
    decreases |times|
  {
    if times != [] {
      assert (times + [end])[1..] == times[1..] + [end];
      LastOfNonDecreasing(times[0], times[1..], end);
    }
  }
}
