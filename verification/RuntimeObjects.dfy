/** The runtime recorder as the object it is: fields updated in place, each method proved to do what
    RuntimeRecorder says of its value (src/runtime-recorder.ts). */
module RuntimeObjects {
  import opened Common
  import opened RuntimeJournal
  import opened RuntimeRecorder
  import RuntimeTheorems

  class DurableRuntimeEvidenceRecorder {
    const hash: Hash
    const header: Header
    const anchorStoreId: string
    var receiptList: seq<Receipt>
    var terminalStatus: Option<TerminalStatus>
    var finalized: bool

    ghost function View(): Recorder
      reads this
    {
      Recorder(header, anchorStoreId, receiptList, terminalStatus, finalized)
    }

    ghost predicate Valid()
      reads this
    {
      RecorderInv(hash, View())
    }

    constructor (hash: Hash, header: Header, anchorStoreId: string)
      requires HeaderShape(header) && header.sha == hash(HeaderContent(header.body)) && StableId(anchorStoreId)
      ensures View() == NewRecorder(header, anchorStoreId) && this.hash == hash && Valid()
    {
      this.hash, this.header, this.anchorStoreId := hash, header, anchorStoreId;
      receiptList, terminalStatus, finalized := [], None, false;
    }

    /** fromRecovered, for a journal that the prefix check accepted. */
    constructor Recovered(hash: Hash, header: Header, journal: seq<Receipt>, anchorStoreId: string)
      requires Recover(hash, header, journal, anchorStoreId, false, false).Ok?
      ensures View() == Recover(hash, header, journal, anchorStoreId, false, false).value && this.hash == hash && Valid()
    {
      this.hash, this.header, this.anchorStoreId := hash, header, anchorStoreId;
      receiptList, finalized := journal, false;
      terminalStatus := RecordedStatus(journal);
    }

    /** Appends one receipt. The recorder is valid again once a terminal receipt's status is set. */
    method AdmitAndPersist(body: Body, stamp: Stamp, requireTerminal: bool) returns (out: Result<Receipt, RecorderError>)
      modifies this`receiptList
      ensures var expected := Admit(hash, old(View()), body, stamp, requireTerminal);
              if expected.Ok? then
                && out == Ok(NextReceipt(hash, header, old(receiptList), body, stamp))
                && View() == old(View()).(receipts := old(receiptList) + [out.value])
                && View() == expected.value
              else out == Err(expected.error) && View() == old(View())
    {
      hide Accepted, PrefixBlocks, StableId, HasTerminal;
      if !StableId(stamp.occurrence) { return Err(OccurrenceInvalid); }
      var receipt := NextReceipt(hash, header, receiptList, body, stamp);
      var candidate := receiptList + [receipt];
      var blockers, _, _ := VerifyPrefix(hash, header, candidate, requireTerminal);
      AcceptedMeansNoBlocker(hash, header, candidate, requireTerminal);
      if blockers != {} {
        return Err(ReceiptRefused);
      }
      assert forall b :: b !in blockers;
      receiptList := candidate;
      return Ok(receipt);
    }

    method AppendBody(body: Body, stamp: Stamp) returns (out: Result<Receipt, RecorderError>)
      requires Valid() && !body.TerminalBody?
      modifies this
      ensures Valid()
      ensures var expected := Append(hash, old(View()), body, stamp);
              if expected.Ok? then out.Ok? && View() == expected.value && receiptList == old(receiptList) + [out.value]
              else out == Err(expected.error) && View() == old(View())
    {
      RuntimeTheorems.DoKeeps(hash, View(), AppendStep(body, stamp));
      hide Admit, RecorderInv;
      if finalized { return Err(PostFinalizationWrite); }
      if terminalStatus.Some? { return Err(PostTerminal); }
      out := AdmitAndPersist(body, stamp, false);
    }

    method TerminalizeRun(status: TerminalStatus, reasons: seq<string>, crashRecovery: bool, stamp: Stamp)
      returns (out: Result<Receipt, RecorderError>)
      requires Valid()
      modifies this
      ensures Valid()
      ensures var expected := Terminalize(hash, old(View()), status, reasons, crashRecovery, stamp);
              if expected.Ok? then out.Ok? && View() == expected.value && receiptList == old(receiptList) + [out.value]
              else out == Err(expected.error) && View() == old(View())
    {
      RuntimeTheorems.DoKeeps(hash, View(), TerminalizeStep(status, reasons, crashRecovery, stamp));
      hide Admit, RecorderInv;
      if finalized { return Err(PostFinalizationWrite); }
      if terminalStatus.Some? { return Err(TerminalAlreadyRecorded); }
      var head := HeadOf(receiptList);
      var body := TerminalBody(status, reasons, |receiptList|, head, crashRecovery);
      out := AdmitAndPersist(body, stamp, true);
      if out.Ok? { terminalStatus := Some(status); }
    }

    method FinalizeRun(finalizedAt: Time) returns (out: Result<Bundle, RecorderError>)
      requires Valid()
      modifies this`finalized
      ensures Valid()
      ensures (View(), out) == Finalize(hash, old(View()), finalizedAt)
    {
      hide BundleOf, Verified, Accepted;
      if finalized { return Err(AlreadyFinalized); }
      if receiptList == [] || !receiptList[|receiptList| - 1].IsTerminal() || terminalStatus.None? {
        return Err(NoTerminal);
      }
      var bundle := BundleOf(hash, header, receiptList, terminalStatus.value, anchorStoreId, finalizedAt, finalizedAt);
      var blockers, issues := VerifyBundle(hash, bundle);
      if blockers != {} || issues != {} { return Err(BundleUnverified); }
      finalized := true;
      return Ok(bundle);
    }
  }
}
