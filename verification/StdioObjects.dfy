/** The stdio recorder as the object it is: fields updated in place by authorize, terminal and
    finalize, each proved to do what StdioRecorder says of its value (src/mcp-stdio-evidence.ts). */
module StdioObjects {
  import opened Common
  import opened StdioJournal
  import opened StdioRecorder
  import StdioRecovery

  class McpStdioAccessRecorder {
    const hash: Hash
    const header: Header
    var receiptList: seq<Receipt>
    var open: map<string, OpenTransaction>
    var recoveredFromInterruption: bool
    var finalized: bool

    ghost function View(): Recorder
      reads this
    {
      Recorder(header, receiptList, open, recoveredFromInterruption, finalized)
    }

    ghost predicate Valid()
      reads this
    {
      RecorderInv(hash, View())
    }

    constructor (hash: Hash, header: Header)
      requires header.sha == hash(HeaderContent(header.body))
      ensures View() == NewRecorder(header) && this.hash == hash && Valid()
    {
      this.hash := hash;
      this.header := header;
      receiptList, open := [], map[];
      recoveredFromInterruption, finalized := false, false;
    }

    /** fromRecovered, for a journal that readPrefix accepted. */
    constructor Recovered(hash: Hash, header: Header, journal: seq<Receipt>)
      requires Recover(hash, header, journal, false, false).Ok?
      ensures View() == Recover(hash, header, journal, false, false).value && this.hash == hash && Valid()
    {
      this.hash := hash;
      this.header := header;
      receiptList := journal;
      recoveredFromInterruption, finalized := true, false;
      var found := FindOpen(hash, header, journal);
      open := found;
    }

    /** Appends one receipt. The recorder is valid again once `open` has followed. */
    method AppendReceipt(t: Transaction, event: Event, at: Time) returns (out: Result<Receipt, RecorderError>)
      modifies this`receiptList
      ensures var expected := Append(hash, old(View()), t, event, at);
              if expected.Ok? then out == Ok(NextReceipt(hash, header, old(receiptList), t, event, at)) && View() == expected.value
              else out == Err(expected.error) && View() == old(View())
    {
      hide Accepted, PrefixBlocks;
      var receipt := NextReceipt(hash, header, receiptList, t, event, at);
      var candidate := receiptList + [receipt];
      var blockers := PrefixBlockers(hash, header, candidate, false);
      AcceptedMeansNoBlocker(hash, header, candidate);
      if blockers != {} {
        return Err(ReceiptInvalid);
      }
      receiptList := candidate;
      return Ok(receipt);
    }

    method AuthorizeRequest(t: Transaction, decision: Authority, at: Time) returns (out: Result<Receipt, RecorderError>)
      requires Valid()
      modifies this
      ensures Valid()
      ensures var expected := Authorize(hash, old(View()), t, decision, at);
              if expected.Ok? then out.Ok? && View() == expected.value && receiptList == old(receiptList) + [out.value]
              else out == Err(expected.error) && View() == old(View())
    {
      hide Append, RecorderInv;
      if finalized { return Err(AlreadyFinalized); }
      if recoveredFromInterruption { return Err(RecoveredSessionWrite); }
      StdioRecovery.DoKeeps(hash, View(), AuthorizeCall(t, decision, at));
      if !ValidTransaction(t) { return Err(TransactionInvalid); }
      if t.requestId in open || exists i :: 0 <= i < |receiptList| && receiptList[i].Id() == t.requestId {
        return Err(RequestIdAlreadyUsed);
      }
      ghost var before := View();
      AppendShape(hash, before, t, Authorization(decision), at);
      out := AppendReceipt(t, Authorization(decision), at);
      if out.Ok? {
        open := open[t.requestId := OpenTransaction(t, out.value.sha, decision)];
      }
    }

    method Terminal(id: string, disposition: Disposition, occurrence: Digest, wrote: bool, at: Time)
      returns (out: Result<Receipt, RecorderError>)
      requires Valid()
      modifies this
      ensures Valid()
      ensures var expected := Terminate(hash, old(View()), id, disposition, occurrence, wrote, at);
              if expected.Ok? then out.Ok? && View() == expected.value && receiptList == old(receiptList) + [out.value]
              else out == Err(expected.error) && View() == old(View())
    {
      hide Append, RecorderInv;
      if finalized { return Err(AlreadyFinalized); }
      if recoveredFromInterruption { return Err(RecoveredSessionWrite); }
      StdioRecovery.DoKeeps(hash, View(), TerminalCall(id, disposition, occurrence, wrote, at));
      if id !in open { return Err(NotOpen); }
      var active := open[id];
      if (active.decision == Blocked) != (disposition == Refused) { return Err(AuthorityTerminalMismatch); }
      if active.decision == Blocked && wrote { return Err(BlockedDispatchClaim); }
      var event := Event.Terminal(active.authorizationSha, disposition, Some(wrote), Some(occurrence), false);
      AppendShape(hash, View(), active.transaction, event, at);
      out := AppendReceipt(active.transaction, event, at);
      if out.Ok? {
        open := open - {id};
      }
    }

    /** finalize. The order in which a recovered recorder walks its open transactions and the clock
        readings it takes are parameters. */
    method FinalizeSession(order: seq<string>, readings: seq<Time>, finalizedAt: Time)
      returns (out: Result<Bundle, RecorderError>)
      requires Valid() && |order| == |readings|
      modifies this
      ensures Valid()
      ensures (View(), out) == Finalize(hash, old(View()), order, readings, finalizedAt)
    {
      hide Append, RecorderInv, FinalBundle, Verified;
      if finalized { return Err(AlreadyFinalized); }
      if !recoveredFromInterruption && open != map[] { return Err(OpenTransactionsRemain); }
      if recoveredFromInterruption {
        ghost var before := View();
        for k := 0 to |order|
          invariant Valid() && View().header == header && recoveredFromInterruption && !finalized
          invariant CloseOpen(hash, before, order, readings) == CloseOpen(hash, View(), order[k..], readings[k..])
        {
          var id := order[k];
          ghost var now := View();
          assert order[k..][0] == id && readings[k..][0] == readings[k];
          assert order[k..][1..] == order[k + 1..] && readings[k..][1..] == readings[k + 1..];
          if id !in open { return Err(NotOpen); }
          var active := open[id];
          AppendShape(hash, now, active.transaction, Interruption(active), readings[k]);
          InterruptionKeeps(hash, now, id, readings[k]);
          var appended := AppendReceipt(active.transaction, Interruption(active), readings[k]);
          if appended.Err? { return Err(appended.error); }
          open := open - {id};
        }
      }
      var bundle := FinalBundle(hash, Recorder(header, receiptList, open, recoveredFromInterruption, finalized), finalizedAt);
      var blockers, issues := VerifyBundle(hash, bundle);
      if blockers != {} || issues != {} { return Err(BundleUnverified); }
      FinalKeeps(hash, View());
      finalized := true;
      return Ok(bundle);
    }
  }

  /** The invariant after one interrupted transaction of a recovered session is closed. */
  lemma InterruptionKeeps(h: Hash, r: Recorder, id: string, at: Time)
    requires RecorderInv(h, r) && id in r.open
    ensures var out := Append(h, r, r.open[id].transaction, Interruption(r.open[id]), at);
            out.Ok? ==> RecorderInv(h, out.value.(open := r.open - {id}))
  {
    hide Accepted, Append, OpenView;
    var (t, event) := (r.open[id].transaction, Interruption(r.open[id]));
    StdioRecovery.OpenIsAccepted(h, r, id);
    if Append(h, r, t, event, at).Ok? { StdioRecovery.AppendKeeps(h, r, t, event, at); }
  }

  lemma FinalKeeps(h: Hash, r: Recorder)
    requires RecorderInv(h, r)
    ensures RecorderInv(h, r.(finalized := true))
  {
    hide Accepted, OpenView;
  }

  lemma AppendShape(h: Hash, r: Recorder, t: Transaction, event: Event, at: Time)
    ensures Append(h, r, t, event, at).Ok? ==>
              Append(h, r, t, event, at).value == r.(receipts := r.receipts + [NextReceipt(h, r.header, r.receipts, t, event, at)])
  {
  }
}
