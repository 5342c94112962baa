/** The finalization counters of a closed stdio journal account for every receipt
    (src/mcp-stdio-evidence.ts). */
module StdioCounters {
  import opened StdioJournal
  import opened StdioRecorder

  function AllowedOpen(open: map<string, Receipt>): set<string> {
    set id | id in open && open[id].body.event == Authorization(Allowed)
  }

  lemma AllowedOpenGrows(open: map<string, Receipt>, r: Receipt)
    requires r.Id() !in open
    ensures |AllowedOpen(open[r.Id() := r])| == |AllowedOpen(open)| + if r.body.event == Authorization(Allowed) then 1 else 0
    ensures |open[r.Id() := r]| == |open| + 1
  {
    assert open[r.Id() := r].Keys == open.Keys + {r.Id()};
    assert AllowedOpen(open[r.Id() := r]) ==
           AllowedOpen(open) + if r.body.event == Authorization(Allowed) then {r.Id()} else {};
  }

  lemma AllowedOpenShrinks(open: map<string, Receipt>, id: string)
    requires id in open
    ensures |AllowedOpen(open)| == |AllowedOpen(open - {id})| + if open[id].body.event == Authorization(Allowed) then 1 else 0
    ensures |open - {id}| == |open| - 1
  {
    assert open.Keys == (open - {id}).Keys + {id};
    assert AllowedOpen(open) ==
           AllowedOpen(open - {id}) + if open[id].body.event == Authorization(Allowed) then {id} else {};
  }

  /** What the counters of the first n receipts say about the transactions still open after them. */
  predicate Balance(n: nat, c: Counters, openCount: nat, allowedOpen: nat, synthesized: bool) {
    var ended := c.completed + c.failed + allowedOpen;
    && c.total == c.allowed + c.blocked
    && n + openCount == 2 * c.total
    && ended <= c.allowed <= ended + c.interrupted
    && (c.interrupted == 0 <==> !synthesized)
  }

  ghost predicate Balanced(receipts: seq<Receipt>, k: nat)
    requires k <= |receipts|
  {
    var open := OpenAfter(receipts, k);
    Balance(k, CountersFor(receipts[..k]), |open|, |AllowedOpen(open)|, Synthesized(receipts[..k]))
  }

  lemma SynthesizedStep(receipts: seq<Receipt>, r: Receipt)
    ensures Synthesized(receipts + [r]) <==> Synthesized(receipts) || (r.IsTerminal() && r.body.event.recovered)
  {
    var grown := receipts + [r];
    assert grown[|receipts|] == r;
    if Synthesized(receipts) {
      var i :| 0 <= i < |receipts| && receipts[i].IsTerminal() && receipts[i].body.event.recovered;
      assert grown[i] == receipts[i];
    }
    if Synthesized(grown) {
      var i :| 0 <= i < |grown| && grown[i].IsTerminal() && grown[i].body.event.recovered;
      assert i < |receipts| ==> receipts[i] == grown[i];
    }
  }

  lemma AuthorizationIsFresh(h: Hash, header: Header, receipts: seq<Receipt>, k: nat)
    requires Accepted(h, header, receipts) && k < |receipts| && receipts[k].IsAuthorization()
    ensures receipts[k].Id() !in OpenAfter(receipts, k)
  {
    hide WellFormed, Authorized, OpenAfter;
    assert Clean(h, header, receipts, k);
    assert !Raises(h, header, receipts, k, RequestIdReused);
    if receipts[k].Id() in OpenAfter(receipts, k) {
      OpenIsAuthorized(receipts, k, receipts[k].Id());
    }
  }

  lemma OpenIsAuthorized(receipts: seq<Receipt>, k: nat, id: string)
    requires k <= |receipts| && id in OpenAfter(receipts, k)
    ensures Authorized(receipts, k, id)
  {
    var auth := OpenAfter(receipts, k)[id];
    var i :| 0 <= i < k && receipts[..k][i] == auth;
    assert receipts[i] == auth;
  }

  /** How a terminal of an accepted journal relates to the authorization it closes. */
  lemma TerminalFitsAuthority(h: Hash, header: Header, receipts: seq<Receipt>, k: nat)
    requires Accepted(h, header, receipts) && k < |receipts| && receipts[k].IsTerminal()
    ensures Binds(OpenAfter(receipts, k), receipts[k])
    ensures Fits(OpenAfter(receipts, k)[receipts[k].Id()].body.event, receipts[k].body.event)
  {
    hide WellFormed, Authorized, OpenAfter;
    assert Clean(h, header, receipts, k);
    assert !Raises(h, header, receipts, k, BindingMissing);
    assert !Raises(h, header, receipts, k, AuthorityMismatch);
    assert !Raises(h, header, receipts, k, RecoveryShapeInvalid);
    assert !Raises(h, header, receipts, k, SdkBindingInvalid);
  }

  lemma NothingBalances(receipts: seq<Receipt>)
    ensures Balanced(receipts, 0)
  {
    assert AllowedOpen(map[]) == {};
  }

  lemma CountersStep(receipts: seq<Receipt>, r: Receipt)
    ensures CountersFor(receipts + [r]) == Tally(CountersFor(receipts), r.body.event)
  {
    assert (receipts + [r])[..|receipts|] == receipts;
  }

  lemma AuthorizationBalances(receipts: seq<Receipt>, k: nat)
    requires k < |receipts| && Balanced(receipts, k)
    requires receipts[k].IsAuthorization() && receipts[k].Id() !in OpenAfter(receipts, k)
    ensures Balanced(receipts, k + 1)
  {
    var r, before, after := receipts[k], OpenAfter(receipts, k), OpenAfter(receipts, k + 1);
    assert receipts[..k + 1] == receipts[..k] + [r];
    SynthesizedStep(receipts[..k], r);
    CountersStep(receipts[..k], r);
    assert after == before[r.Id() := r];
    AllowedOpenGrows(before, r);
    hide Synthesized, OpenAfter, AllowedOpen, CountersFor, Balance;
    var c := CountersFor(receipts[..k]);
    TallyAuthorization(k, c, |before|, |AllowedOpen(before)|, Synthesized(receipts[..k]), r.body.event);
  }

  lemma TallyAuthorization(n: nat, c: Counters, openCount: nat, allowedOpen: nat, synthesized: bool, auth: Event)
    requires Balance(n, c, openCount, allowedOpen, synthesized) && auth.Authorization?
    ensures Balance(n + 1, Tally(c, auth), openCount + 1, if auth.decision == Allowed then allowedOpen + 1 else allowedOpen,
                    synthesized)
  {
  }

  /** A terminal that fits the authority of the authorization it closes. */
  predicate Fits(auth: Event, t: Event) {
    && auth.Authorization? && t.Terminal?
    && (auth.decision == Allowed ==> t.disposition != Refused)
    && (auth.decision == Blocked ==> t.disposition in {Refused, InterruptedUnknown})
    && (t.recovered <==> t.disposition == InterruptedUnknown)
  }

  lemma TerminalBalances(receipts: seq<Receipt>, k: nat)
    requires k < |receipts| && Balanced(receipts, k)
    requires Binds(OpenAfter(receipts, k), receipts[k])
    requires Fits(OpenAfter(receipts, k)[receipts[k].Id()].body.event, receipts[k].body.event)
    ensures Balanced(receipts, k + 1)
  {
    var r, before, after := receipts[k], OpenAfter(receipts, k), OpenAfter(receipts, k + 1);
    assert receipts[..k + 1] == receipts[..k] + [r];
    SynthesizedStep(receipts[..k], r);
    CountersStep(receipts[..k], r);
    assert after == before - {r.Id()};
    AllowedOpenShrinks(before, r.Id());
    hide Synthesized, OpenAfter, AllowedOpen, CountersFor, Binds, Balance, Fits;
    var c := CountersFor(receipts[..k]);
    TallyTerminal(k, c, |before|, |AllowedOpen(before)|, Synthesized(receipts[..k]), before[r.Id()].body.event, r.body.event);
  }

  lemma TallyTerminal(n: nat, c: Counters, openCount: nat, allowedOpen: nat, synthesized: bool, auth: Event, t: Event)
    requires Balance(n, c, openCount, allowedOpen, synthesized) && Fits(auth, t)
    requires openCount > 0 && (auth.decision == Allowed ==> allowedOpen > 0)
    ensures Balance(n + 1, Tally(c, t), openCount - 1, if auth.decision == Allowed then allowedOpen - 1 else allowedOpen,
                    synthesized || t.recovered)
  {
  }

  lemma {:induction false} JournalBalances(h: Hash, header: Header, receipts: seq<Receipt>, k: nat)
    requires Accepted(h, header, receipts) && k <= |receipts|
    ensures Balanced(receipts, k)
    decreases k
  {
    hide Accepted, Balanced;
    if k == 0 {
      NothingBalances(receipts);
    } else {
      JournalBalances(h, header, receipts, k - 1);
      if receipts[k - 1].IsAuthorization() {
        AuthorizationIsFresh(h, header, receipts, k - 1);
        AuthorizationBalances(receipts, k - 1);
      } else {
        TerminalFitsAuthority(h, header, receipts, k - 1);
        TerminalBalances(receipts, k - 1);
      }
    }
  }

  /** A verified bundle: every call was either allowed or blocked, each has exactly two receipts, and
      unless something was recovered every allowed call completed or failed. */
  lemma CountersAddUp(h: Hash, b: Bundle)
    requires Verified(h, b)
    ensures var c := b.finalization.body.counters;
            && c.total == c.allowed + c.blocked
            && b.finalization.body.receiptCount == 2 * c.total
            && c.completed + c.failed <= c.allowed <= c.completed + c.failed + c.interrupted
            && (!b.finalization.body.recoveryPerformed ==> c.interrupted == 0 && c.allowed == c.completed + c.failed)
  {
    assert !FinalRaises(h, b, FinalCountMismatch);
    assert !FinalRaises(h, b, FinalCountersMismatch);
    assert !FinalRaises(h, b, RecoveryFlagMismatch);
    JournalBalances(h, b.header, b.receipts, |b.receipts|);
    assert b.receipts[..|b.receipts|] == b.receipts;
    hide Accepted, CountersFor, Synthesized;
    assert AllowedOpen(map[]) == {};
  }

  // ----- what each counter counts -----

  predicate Decided(r: Receipt, decision: Authority) { r.IsAuthorization() && r.body.event.decision == decision }

  predicate EndedBy(r: Receipt, dispositions: set<Disposition>) {
    r.IsTerminal() && r.body.event.disposition in dispositions
  }

  function DecidedAt(receipts: seq<Receipt>, decision: Authority): set<int> {
    set i | 0 <= i < |receipts| && Decided(receipts[i], decision)
  }

  function EndedAt(receipts: seq<Receipt>, dispositions: set<Disposition>): set<int> {
    set i | 0 <= i < |receipts| && EndedBy(receipts[i], dispositions)
  }

  lemma DecidedStep(init: seq<Receipt>, r: Receipt, decision: Authority)
    ensures |DecidedAt(init + [r], decision)| == |DecidedAt(init, decision)| + if Decided(r, decision) then 1 else 0
  {
    var grown := init + [r];
    assert forall i :: 0 <= i < |init| ==> grown[i] == init[i];
    assert DecidedAt(grown, decision) == DecidedAt(init, decision) + (if Decided(r, decision) then {|init|} else {});
  }

  lemma EndedStep(init: seq<Receipt>, r: Receipt, dispositions: set<Disposition>)
    ensures |EndedAt(init + [r], dispositions)| == |EndedAt(init, dispositions)| + if EndedBy(r, dispositions) then 1 else 0
  {
    var grown := init + [r];
    assert forall i :: 0 <= i < |init| ==> grown[i] == init[i];
    assert EndedAt(grown, dispositions) == EndedAt(init, dispositions) + (if EndedBy(r, dispositions) then {|init|} else {});
  }

  /** Each counter is the number of receipts of its kind. */
  lemma {:induction false} CountersCount(receipts: seq<Receipt>)
    ensures var c := CountersFor(receipts);
            && c.allowed == |DecidedAt(receipts, Allowed)|
            && c.blocked == |DecidedAt(receipts, Blocked)|
            && c.total == c.allowed + c.blocked
            && c.completed == |EndedAt(receipts, {Completed})|
            && c.failed == |EndedAt(receipts, {ToolFailure, ProtocolFailure, IdentityMismatch})|
            && c.interrupted == |EndedAt(receipts, {InterruptedUnknown})|
  {
    if receipts == [] {
      assert DecidedAt(receipts, Allowed) == {} && DecidedAt(receipts, Blocked) == {};
      assert forall dispositions :: EndedAt(receipts, dispositions) == {};
    } else {
      var init, r := receipts[..|receipts| - 1], receipts[|receipts| - 1];
      assert receipts == init + [r];
      CountersCount(init);
      DecidedStep(init, r, Allowed);
      DecidedStep(init, r, Blocked);
      EndedStep(init, r, {Completed});
      EndedStep(init, r, {ToolFailure, ProtocolFailure, IdentityMismatch});
      EndedStep(init, r, {InterruptedUnknown});
      hide DecidedAt, EndedAt;
    }
  }
}
