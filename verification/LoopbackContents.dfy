/** What each turn of the loopback gateway counts, and under which id a native request is recorded
    (src/credentialless-runtime.ts). */
module LoopbackContents {
  import opened Common
  import opened GatewayFrames
  import opened GatewayRecording
  import opened GatewayInvariant
  import opened GatewayContents
  import opened Egress
  import opened EgressContents
  import opened Loopback

  // ----- decimal digits -----

  function Value(digits: string): int {
    if digits == "" then 0 else 10 * Value(digits[..|digits| - 1]) + (digits[|digits| - 1] as int - 48)
  }

  /** The digits of a number, most significant first and without a leading zero. */
  lemma {:induction false} DecimalShows(n: nat)
    ensures Value(Decimal(n)) == n && Decimal(n) != ""
    ensures forall i :: 0 <= i < |Decimal(n)| ==> 48 <= Decimal(n)[i] as int <= 57
    ensures Decimal(n)[0] as int == 48 ==> n == 0
  {
    if n >= 10 {
      DecimalShows(n / 10);
      assert Decimal(n)[..|Decimal(n)| - 1] == Decimal(n / 10);
    } else {
      assert Decimal(n)[..0] == "" && Value("") == 0;
    }
  }

  // ----- counters -----

  /** What a request that is over adds to the counters. */
  predicate Counted(c: Counters, c': Counters, kind: Kind, threw: bool) {
    && c'.accepted == c.accepted + (if threw then 0 else 1)
    && c'.explicitEnvelope == c.explicitEnvelope + (if !threw && kind == Explicit then 1 else 0)
    && c'.nativeProvider == c.nativeProvider + (if !threw && kind == Native then 1 else 0)
    && c'.unauthorized == c.unauthorized
    && c'.malformed == c.malformed + (if threw then 1 else 0)
  }

  /** The counters after a turn: a refused request is unauthorized, an unreadable one or one whose dispatch
      throws is malformed, one whose dispatch returns is accepted as of its kind; nothing else counts. */
  lemma TurnCounts(h: Hash, routes: seq<Route>, g: Gateway, turn: Loopback.Turn)
    requires FlightsValid(g.egress)
    ensures var t := Loopback.Next(h, routes, g, turn);
            match turn
            case Arrive(Health) => t == g
            case Arrive(Unauthorized) =>
              t == g.(counters := Counters(g.counters.accepted, g.counters.explicitEnvelope, g.counters.nativeProvider,
                                           g.counters.unauthorized + 1, g.counters.malformed))
            case Arrive(Unreadable) =>
              t == g.(counters := Counters(g.counters.accepted, g.counters.explicitEnvelope, g.counters.nativeProvider,
                                           g.counters.unauthorized, g.counters.malformed + 1))
            case Arrive(Readable(kind, q, auth, clock, sentAt)) =>
              var (egress, started) := Begin(h, routes, g.egress, Named(g, kind, q), auth, clock, sentAt);
              && t.egress == egress && t.left == g.left
              && (match started
                  case InFlight(k) => t.counters == g.counters && t.waiting == g.waiting[k := kind]
                  case Ended(ending) => Counted(g.counters, t.counters, kind, ending.Threw?) && t.waiting == g.waiting)
            case Land(k, reply, clock) =>
              if k !in g.waiting || k !in g.egress.flights then t == g
              else
                var (egress, ending) := Resume(h, g.egress, k, reply, clock);
                && t.egress == egress && Counted(g.counters, t.counters, g.waiting[k], ending.Threw?)
                && t.waiting == g.waiting - {k}
                && t.left == if ending.Threw? then g.left[k := g.waiting[k]] else g.left
  {
    hide Begin, Resume, Named, FlightsValid;
  }

  /** The gateway as it starts: nothing counted, waiting, sent or recorded. */
  lemma NewGatewayHolds(session: string, createdAt: Time, runtimeId: string)
    ensures var g := NewGateway(session, createdAt, runtimeId);
            && g.counters == Counters(0, 0, 0, 0, 0) && g.waiting == map[] && g.left == map[] && g.runtimeId == runtimeId
            && g.egress.flights == map[] && g.egress.stuck == {} && g.egress.sent == []
            && g.egress.session.handles == [] && g.egress.session.recorder.log == []
            && g.egress.session.recorder.manifest.session == session
            && g.egress.session.recorder.manifest.status == Recording
  {
  }

  // ----- ids -----

  predicate StartsNative(id: string, runtimeId: string, digits: string) { id == runtimeId + "-native-" + digits }

  /** A native request whose dispatch starts or returns is recorded as a first attempt under the runtime's id and one more
      than the native requests counted so far; an explicit envelope under its own. */
  lemma RecordedUnder(h: Hash, routes: seq<Route>, g: Gateway, kind: Kind, q: Request, auth: Authority, clock: PrepareClock, sentAt: Time)
      returns (digits: string)
    requires FlightsValid(g.egress) && CountersAgree(h, g.egress.session.recorder)
    ensures Value(digits) == g.counters.nativeProvider + 1 && digits != "" && digits[0] as int != 48
    ensures forall i :: 0 <= i < |digits| ==> 48 <= digits[i] as int <= 57
    ensures var t := Loopback.Next(h, routes, g, Arrive(Readable(kind, q, auth, clock, sentAt)));
            var (log, n) := (t.egress.session.recorder.log, |g.egress.session.recorder.log|);
            Begin(h, routes, g.egress, Named(g, kind, q), auth, clock, sentAt).1 != Ended(Threw) ==>
              && |log| > n
              && var a := log[n].body.attempt;
              && a.provider == q.provider && Some(a.requestedModel) == q.requestedModel
              && a.request.sha == h(RawBytes(q.body)) && a.request.mediaType == q.mediaType
              && (kind == Native ==> StartsNative(a.logicalId, g.runtimeId, digits) && a.number == 1 && a.retryOf.None?)
              && (kind == Explicit ==> a.logicalId == q.logicalId && a.number == q.number && a.retryOf == q.retryOf)
  {
    digits := Decimal(g.counters.nativeProvider + 1);
    DecimalShows(g.counters.nativeProvider + 1);
    var named := Named(g, kind, q);
    KindKinds(kind);
    assert kind == Native ==> StartsNative(named.logicalId, g.runtimeId, digits);
    hide Begin, Decimal, NativeId, CountersAgree, Linked, PolicyHolds, StartsNative;
    TurnCounts(h, routes, g, Arrive(Readable(kind, q, auth, clock, sentAt)));
    var input := RequestRecorded(h, routes, g.egress, named, auth, clock, sentAt);
  }

  lemma KindKinds(kind: Kind)
    ensures kind == Explicit || kind == Native
  {
    assert kind.Explicit? || kind.Native?;
  }
}
