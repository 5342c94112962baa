/** The credentialless loopback gateway: request handlers interleaved at their awaits over one shared set
    of counters and one egress dispatcher (src/credentialless-runtime.ts). */
module Loopback {
  import opened Common
  import opened GatewayFrames
  import opened GatewayRecording
  import opened GatewayInvariant
  import opened Egress
  import opened EgressSafety
  import opened EgressTheorems

  datatype Counters = Counters(accepted: nat, explicitEnvelope: nat, nativeProvider: nat, unauthorized: nat, malformed: nat)

  datatype Kind = Explicit | Native

  /** The gateway: its counters, the dispatcher, which handler waits for which attempt, and, as history,
      which kind of handler left an attempt by an exception. */
  datatype Gateway = Gateway(
    counters: Counters,
    egress: State,
    waiting: map<nat, Kind>,
    left: map<nat, Kind>,
    runtimeId: string)

  function Decimal(n: nat): string {
    if n < 10 then [('0' as int + n) as char] else Decimal(n / 10) + [('0' as int + n % 10) as char]
  }

  /** The logical id that the next native request is given. */
  function NativeId(g: Gateway): string {
    g.runtimeId + "-native-" + Decimal(g.counters.nativeProvider + 1)
  }

  datatype Arrival =
    | Health
    | Unauthorized
    | Unreadable
    | Readable(kind: Kind, request: Request, authority: Authority, prepareClock: PrepareClock, sentAt: Time)

  datatype Turn =
    | Arrive(arrival: Arrival)
    | Land(handle: nat, reply: Reply, closeClock: CloseClock)

  /** What the handler does once dispatch has returned or thrown. */
  function Count(c: Counters, kind: Kind, ending: Ending): Counters {
    if ending.Threw? then c.(malformed := c.malformed + 1)
    else
      match kind
      case Explicit => c.(accepted := c.accepted + 1, explicitEnvelope := c.explicitEnvelope + 1)
      case Native => c.(accepted := c.accepted + 1, nativeProvider := c.nativeProvider + 1)
  }

  /** A native request is dispatched as attempt 1 under an id drawn from the shared counter. */
  function Named(g: Gateway, kind: Kind, q: Request): Request {
    if kind == Native then q.(logicalId := NativeId(g), number := 1, retryOf := None) else q
  }

  function Next(h: Hash, routes: seq<Route>, g: Gateway, turn: Turn): Gateway
    requires FlightsValid(g.egress)
  {
    match turn
    case Arrive(Health) => g
    case Arrive(Unauthorized) => g.(counters := g.counters.(unauthorized := g.counters.unauthorized + 1))
    case Arrive(Unreadable) => g.(counters := g.counters.(malformed := g.counters.malformed + 1))
    case Arrive(Readable(kind, q, auth, clock, sentAt)) =>
      var (egress, started) := Begin(h, routes, g.egress, Named(g, kind, q), auth, clock, sentAt);
      (match started
       case InFlight(k) => g.(egress := egress, waiting := g.waiting[k := kind])
       case Ended(ending) => g.(egress := egress, counters := Count(g.counters, kind, ending)))
    case Land(k, reply, clock) =>
      if k !in g.waiting || k !in g.egress.flights then g
      else
        var (egress, ending) := Resume(h, g.egress, k, reply, clock);
        g.(egress := egress, waiting := g.waiting - {k}, counters := Count(g.counters, g.waiting[k], ending),
           left := if ending.Threw? then g.left[k := g.waiting[k]] else g.left)
  }

  function NewGateway(session: string, createdAt: Time, runtimeId: string): Gateway {
    Gateway(Counters(0, 0, 0, 0, 0), NewState(session, createdAt), map[], map[], runtimeId)
  }

  lemma NextKeepsValid(h: Hash, routes: seq<Route>, g: Gateway, turn: Turn)
    requires FlightsValid(g.egress)
    ensures FlightsValid(Next(h, routes, g, turn).egress)
    ensures g.egress.session.recorder.log <= Next(h, routes, g, turn).egress.session.recorder.log
  {
    hide Begin, Resume, FlightsValid, NativeId;
    match turn
    case Arrive(Readable(kind, q, auth, clock, sentAt)) =>
      EgressTheorems.NextKeepsValid(h, routes, g.egress, BeginTurn(Named(g, kind, q), auth, clock, sentAt));
      NextGrows(h, routes, g.egress, BeginTurn(Named(g, kind, q), auth, clock, sentAt));
    case Land(k, reply, clock) =>
      EgressTheorems.NextKeepsValid(h, routes, g.egress, ResumeTurn(k, reply, clock));
      NextGrows(h, routes, g.egress, ResumeTurn(k, reply, clock));
    case _ =>
  }

  function Run(h: Hash, routes: seq<Route>, g: Gateway, turns: seq<Turn>): Gateway
    requires FlightsValid(g.egress)
    decreases |turns|
  {
    if turns == [] then g
    else
      NextKeepsValid(h, routes, g, turns[0]);
      Run(h, routes, Next(h, routes, g, turns[0]), turns[1..])
  }

  // ----- the invariant -----

  /** Attempt k is recorded as attempt 1 under the id that the counter gives to the next native request. */
  predicate HoldsNativeId(g: Gateway, k: nat) {
    && k < |g.egress.session.handles|
    && g.egress.session.handles[k].decision.body.attempt.logicalId == NativeId(g)
    && g.egress.session.handles[k].decision.body.attempt.number == 1
  }

  /** Native attempts in flight or left by an exception. */
  function Natives(g: Gateway): set<nat> {
    (set k | k in g.waiting && g.waiting[k] == Native) + (set k | k in g.left && g.left[k] == Native)
  }

  predicate NativesHold(g: Gateway) {
    forall k :: k in Natives(g) ==> HoldsNativeId(g, k)
  }

  predicate CountsAgree(g: Gateway) {
    && g.counters.accepted == g.counters.explicitEnvelope + g.counters.nativeProvider
    && g.counters.accepted + |g.egress.flights| + |g.egress.stuck| == |g.egress.session.handles|
    && g.waiting.Keys == g.egress.flights.Keys
    && g.left.Keys == g.egress.stuck
  }

  ghost predicate GatewayInv(h: Hash, g: Gateway) {
    EgressInv(h, g.egress) && CountsAgree(g) && NativesHold(g)
  }

  lemma HandlesDifferById(h: Hash, s: Session, j: nat, k: nat)
    requires SessionInv(h, s) && j < |s.handles| && k < |s.handles| && j != k
    ensures s.handles[j].decision.body.attempt.logicalId != s.handles[k].decision.body.attempt.logicalId
            || s.handles[j].decision.body.attempt.number != s.handles[k].decision.body.attempt.number
  {
    var log := s.recorder.log;
    var a :| 0 <= a < |log| && log[a] == s.handles[j].decision;
    var b :| 0 <= b < |log| && log[b] == s.handles[k].decision;
    hide CountersAgree, AccountsAgree, Answered, Lineage, LogicalMatches, OpenHandle;
  }

  /** At most one native attempt is in flight or left. */
  lemma OneNative(h: Hash, g: Gateway, j: nat, k: nat)
    requires GatewayInv(h, g) && j in Natives(g) && k in Natives(g)
    ensures j == k
  {
    hide SessionInv, SentLogged, Counted, Tracked, FlightsOpen, NativeId, CountsAgree;
    if j != k {
      HandlesDifferById(h, g.egress.session, j, k);
    }
  }

  lemma RecordedIdRefused(h: Hash, s: Session, k: nat, input: PrepareInput, clock: PrepareClock)
    requires SessionInv(h, s) && k < |s.handles|
    requires s.handles[k].decision.body.attempt.logicalId == input.logicalId
    requires s.handles[k].decision.body.attempt.number == input.number
    ensures Prepare(h, s.recorder, input, clock).1.Err? && Prepare(h, s.recorder, input, clock).0 == s.recorder
  {
    hide CountersAgree, AccountsAgree, Answered, Lineage, Distinct, OpenHandle, Prepare, PrepareRefusal, ContentReference;
    var i :| 0 <= i < |s.recorder.log| && s.recorder.log[i] == s.handles[k].decision;
    assert Recalls(s.recorder.logical, s.recorder.log[i]);
    PrepareSplits(h, s.recorder, input, clock);
  }

  /** While some attempt holds the next native id, a native request is refused without a trace. */
  lemma HeldIdRefused(h: Hash, routes: seq<Route>, g: Gateway, k: nat, q: Request, auth: Authority, clock: PrepareClock, sentAt: Time)
    requires GatewayInv(h, g) && HoldsNativeId(g, k)
    ensures var (egress, started) := Begin(h, routes, g.egress, Named(g, Native, q), auth, clock, sentAt);
            started == Ended(Threw) && egress == g.egress
  {
    hide SessionInv, SentLogged, Counted, Tracked, FlightsOpen, NativeId, CountsAgree, Prepare, FindRoute;
    var named := Named(g, Native, q);
    if named.requestedModel.Some? {
      var input := PrepareInputFor(named, named.requestedModel.value, auth, FindRoute(routes, named));
      RecordedIdRefused(h, g.egress.session, k, input, clock);
    }
  }

  // ----- every turn keeps it -----

  lemma BeginShape(h: Hash, routes: seq<Route>, s: State, q: Request, auth: Authority, clock: PrepareClock, sentAt: Time)
    ensures var (t, started) := Begin(h, routes, s, q, auth, clock, sentAt);
            var n := |s.session.handles|;
            && t.stuck == s.stuck
            && n <= |t.session.handles| && t.session.handles[..n] == s.session.handles
            && (started.InFlight? ==>
                  && t.flights.Keys == s.flights.Keys + {n} && started.handle == n && |t.session.handles| == n + 1
                  && t.session.handles[n].decision.body.attempt.logicalId == q.logicalId
                  && t.session.handles[n].decision.body.attempt.number == q.number)
            && (started.Ended? ==>
                  && t.flights == s.flights
                  && |t.session.handles| == n + (if started.ending.Threw? then 0 else 1))
  {
    hide Prepare, FindRoute;
    if q.requestedModel.Some? {
      PrepareAdds(h, s.session.recorder, PrepareInputFor(q, q.requestedModel.value, auth, FindRoute(routes, q)), clock);
    }
  }

  lemma ResumeShape(h: Hash, s: State, k: nat, reply: Reply, clock: CloseClock)
    requires HandlesDecide(s.session) && k in s.flights && k < |s.session.handles|
    ensures var (t, ending) := Resume(h, s, k, reply, clock);
            && t.flights == s.flights - {k}
            && t.stuck == (if ending.Threw? then s.stuck + {k} else s.stuck)
            && |t.session.handles| == |s.session.handles|
            && forall j :: 0 <= j < |s.session.handles| ==> t.session.handles[j].decision == s.session.handles[j].decision
  {
    hide Fail, Succeed, ClosingFor;
    var a := s.session.handles[k];
    match ClosingFor(a.decision.body.attempt.provider, s.flights[k].route, reply)
    case CloseFail(failure) =>
      FailAdds(h, s.session.recorder, a, failure, clock);
      ResumeByFailing(h, s, k, reply, clock, failure);
    case CloseSucceed(success) =>
      SucceedAdds(h, s.session.recorder, a, success, clock);
      ResumeBySucceeding(h, s, k, reply, clock, success);
  }

  lemma ArriveKeeps(h: Hash, routes: seq<Route>, g: Gateway, kind: Kind, q: Request, auth: Authority, clock: PrepareClock, sentAt: Time)
    requires OccurrenceCollisionFree(h) && FlightsValid(g.egress) && GatewayInv(h, g)
    requires var t := Next(h, routes, g, Arrive(Readable(kind, q, auth, clock, sentAt)));
             |t.egress.session.recorder.log| <= MAX_SAFE_INTEGER
    ensures GatewayInv(h, Next(h, routes, g, Arrive(Readable(kind, q, auth, clock, sentAt))))
  {
    hide Begin, EgressInv, NativeId, FlightsValid, CountsAgree, NativesHold, Next;
    var named := Named(g, kind, q);
    ArriveStep(h, routes, g, kind, q, auth, clock, sentAt);
    BeginKeeps(h, routes, g.egress, named, auth, clock, sentAt);
    BeginShape(h, routes, g.egress, named, auth, clock, sentAt);
    NoNativeBefore(h, routes, g, kind, q, auth, clock, sentAt);
    WaitingBelow(h, g);
    var t := Next(h, routes, g, Arrive(Readable(kind, q, auth, clock, sentAt)));
    var (egress, started) := Begin(h, routes, g.egress, named, auth, clock, sentAt);
    ArriveCounts(g, t, kind, started);
    SameNativeId(g, t);
    assert forall k :: 0 <= k < |g.egress.session.handles| ==> egress.session.handles[k] == egress.session.handles[..|g.egress.session.handles|][k];
    ArriveHolds(g, t, kind, started);
  }

  lemma ArriveStep(h: Hash, routes: seq<Route>, g: Gateway, kind: Kind, q: Request, auth: Authority, clock: PrepareClock, sentAt: Time)
    requires FlightsValid(g.egress)
    ensures var t := Next(h, routes, g, Arrive(Readable(kind, q, auth, clock, sentAt)));
            var (egress, started) := Begin(h, routes, g.egress, Named(g, kind, q), auth, clock, sentAt);
            && t.egress == egress && t.runtimeId == g.runtimeId && t.left == g.left
            && (started.InFlight? ==> t.waiting == g.waiting[started.handle := kind] && t.counters == g.counters)
            && (started.Ended? ==> t.waiting == g.waiting && t.counters == Count(g.counters, kind, started.ending))
  {
    hide Begin, Named, Count, FlightsValid;
  }

  lemma ArriveCounts(g: Gateway, t: Gateway, kind: Kind, started: Started)
    requires CountsAgree(g) && t.left == g.left && t.egress.stuck == g.egress.stuck
    requires |g.egress.session.handles| !in g.egress.flights
    requires started.InFlight? ==>
               && started.handle == |g.egress.session.handles| && |t.egress.session.handles| == started.handle + 1
               && t.waiting == g.waiting[started.handle := kind] && t.counters == g.counters
               && t.egress.flights.Keys == g.egress.flights.Keys + {started.handle}
    requires started.Ended? ==>
               && t.waiting == g.waiting && t.egress.flights == g.egress.flights
               && t.counters == Count(g.counters, kind, started.ending)
               && |t.egress.session.handles| == |g.egress.session.handles| + (if started.ending.Threw? then 0 else 1)
    ensures CountsAgree(t)
  {
    if started.InFlight? {
      assert |t.egress.flights.Keys| == |g.egress.flights.Keys| + 1;
    }
  }

  lemma WaitingBelow(h: Hash, g: Gateway)
    requires EgressInv(h, g.egress)
    ensures |g.egress.session.handles| !in g.egress.flights
  {
    hide SessionInv, SentLogged, Counted, Tracked;
  }

  lemma NoNativeBefore(h: Hash, routes: seq<Route>, g: Gateway, kind: Kind, q: Request, auth: Authority, clock: PrepareClock, sentAt: Time)
    requires GatewayInv(h, g)
    ensures var started := Begin(h, routes, g.egress, Named(g, kind, q), auth, clock, sentAt).1;
            kind == Native && started != Ended(Threw) ==> Natives(g) == {}
  {
    hide EgressInv, Begin, Natives, Named, HoldsNativeId;
    var started := Begin(h, routes, g.egress, Named(g, kind, q), auth, clock, sentAt).1;
    if kind == Native && Natives(g) != {} {
      var k := SomeElement(Natives(g));
      HeldIdRefused(h, routes, g, k, q, auth, clock, sentAt);
    }
  }

  lemma ArriveHolds(g: Gateway, t: Gateway, kind: Kind, started: Started)
    requires NativesHold(g)
    requires kind == Native && started != Ended(Threw) ==> Natives(g) == {}
    requires t.runtimeId == g.runtimeId && t.left == g.left
    requires |g.egress.session.handles| <= |t.egress.session.handles|
    requires forall k :: 0 <= k < |g.egress.session.handles| ==> t.egress.session.handles[k] == g.egress.session.handles[k]
    requires match started
             case InFlight(n) =>
               && n == |g.egress.session.handles| < |t.egress.session.handles|
               && t.waiting == g.waiting[n := kind] && t.counters == g.counters
               && (kind == Native ==> HoldsNativeId(t, n))
             case Ended(ending) => t.waiting == g.waiting && t.counters == Count(g.counters, kind, ending)
    ensures NativesHold(t)
  {
    hide NativeId;
    assert t.counters.nativeProvider == g.counters.nativeProvider ==> NativeId(t) == NativeId(g) by { SameNativeId(g, t); }
    if started.InFlight? {
      assert Natives(t) <= Natives(g) + (if kind == Native then {started.handle} else {});
    } else {
      assert Natives(t) == Natives(g);
    }
    forall k | k in Natives(t)
      ensures HoldsNativeId(t, k)
    {
      if k in Natives(g) { assert HoldsNativeId(g, k); }
    }
  }

  lemma SameNativeId(g: Gateway, t: Gateway)
    requires t.runtimeId == g.runtimeId
    ensures t.counters.nativeProvider == g.counters.nativeProvider ==> NativeId(t) == NativeId(g)
  {
  }

  lemma LandHolds(h: Hash, g: Gateway, t: Gateway, k: nat, ending: Ending)
    requires GatewayInv(h, g) && k in g.waiting
    requires t.runtimeId == g.runtimeId && t.waiting == g.waiting - {k}
    requires t.left == (if ending.Threw? then g.left[k := g.waiting[k]] else g.left)
    requires t.counters == Count(g.counters, g.waiting[k], ending)
    requires |t.egress.session.handles| == |g.egress.session.handles|
    requires forall j :: 0 <= j < |g.egress.session.handles| ==>
               t.egress.session.handles[j].decision == g.egress.session.handles[j].decision
    ensures NativesHold(t)
  {
    hide EgressInv, CountsAgree, NativeId;
    SameNativeId(g, t);
    assert Natives(t) <= Natives(g);
    forall j | j in Natives(t)
      ensures HoldsNativeId(t, j)
    {
      assert HoldsNativeId(g, j);
      if g.waiting[k] == Native && !ending.Threw? {
        OneNative(h, g, j, k);
        LandedIsGone(h, g, t, k);
      }
    }
  }

  lemma LandedIsGone(h: Hash, g: Gateway, t: Gateway, k: nat)
    requires EgressInv(h, g.egress) && CountsAgree(g) && k in g.waiting
    requires t.waiting == g.waiting - {k} && t.left == g.left
    ensures k !in Natives(t)
  {
    hide SessionInv, SentLogged, Counted, Tracked;
  }

  lemma LandKeeps(h: Hash, routes: seq<Route>, g: Gateway, k: nat, reply: Reply, clock: CloseClock)
    requires OccurrenceCollisionFree(h) && FlightsValid(g.egress) && GatewayInv(h, g)
    ensures GatewayInv(h, Next(h, routes, g, Turn.Land(k, reply, clock)))
  {
    hide Resume, EgressInv, NativesHold, CountsAgree, FlightsValid, Next;
    LandStep(h, routes, g, k, reply, clock);
    if k in g.waiting && k in g.egress.flights {
      FlightNotStuck(h, g.egress, k);
      ResumeKeeps(h, g.egress, k, reply, clock);
      ResumeShape(h, g.egress, k, reply, clock);
      var t := Next(h, routes, g, Turn.Land(k, reply, clock));
      var ending := Resume(h, g.egress, k, reply, clock).1;
      LandHolds(h, g, t, k, ending);
      LandCounts(g, t, k, ending);
    }
  }

  lemma LandStep(h: Hash, routes: seq<Route>, g: Gateway, k: nat, reply: Reply, clock: CloseClock)
    requires FlightsValid(g.egress)
    ensures var t := Next(h, routes, g, Turn.Land(k, reply, clock));
            if k !in g.waiting || k !in g.egress.flights then t == g
            else
              var (egress, ending) := Resume(h, g.egress, k, reply, clock);
              && t.egress == egress && t.runtimeId == g.runtimeId && t.waiting == g.waiting - {k}
              && t.counters == Count(g.counters, g.waiting[k], ending)
              && t.left == (if ending.Threw? then g.left[k := g.waiting[k]] else g.left)
  {
    hide Resume, Count;
  }

  lemma LandCounts(g: Gateway, t: Gateway, k: nat, ending: Ending)
    requires CountsAgree(g) && k in g.waiting && k in g.egress.flights && k !in g.egress.stuck
    requires t.waiting == g.waiting - {k} && t.egress.flights == g.egress.flights - {k}
    requires t.counters == Count(g.counters, g.waiting[k], ending)
    requires t.left == (if ending.Threw? then g.left[k := g.waiting[k]] else g.left)
    requires t.egress.stuck == (if ending.Threw? then g.egress.stuck + {k} else g.egress.stuck)
    requires |t.egress.session.handles| == |g.egress.session.handles|
    ensures CountsAgree(t)
  {
    assert t.waiting.Keys == t.egress.flights.Keys && t.left.Keys == t.egress.stuck;
    OneFewer(g.egress.flights, k);
    if ending.Threw? {
      assert |g.egress.stuck + {k}| == |g.egress.stuck| + 1;
    }
  }

  lemma OneFewer<T>(m: map<nat, T>, k: nat)
    requires k in m
    ensures |m| == |m - {k}| + 1
  {
    assert m.Keys == (m - {k}).Keys + {k};
  }

  lemma FlightNotStuck(h: Hash, s: State, k: nat)
    requires EgressInv(h, s) && k in s.flights
    ensures k !in s.stuck && k < |s.session.handles| && HandlesDecide(s.session)
  {
    hide RecorderInv, SentLogged, Counted, Tracked;
  }

  lemma NextKeeps(h: Hash, routes: seq<Route>, g: Gateway, turn: Turn)
    requires OccurrenceCollisionFree(h) && FlightsValid(g.egress) && GatewayInv(h, g)
    requires |Next(h, routes, g, turn).egress.session.recorder.log| <= MAX_SAFE_INTEGER
    ensures GatewayInv(h, Next(h, routes, g, turn))
  {
    hide EgressInv, FlightsValid, Begin, Resume, Named, NativeId;
    match turn
    case Arrive(Readable(kind, q, auth, clock, sentAt)) =>
      hide GatewayInv;
      ArriveKeeps(h, routes, g, kind, q, auth, clock, sentAt);
    case Land(k, reply, clock) =>
      hide GatewayInv;
      LandKeeps(h, routes, g, k, reply, clock);
    case _ =>
      hide NativesHold;
      QuietHolds(g, Next(h, routes, g, turn));
  }

  lemma QuietHolds(g: Gateway, t: Gateway)
    requires NativesHold(g) && t.egress == g.egress && t.waiting == g.waiting && t.left == g.left
    requires t.runtimeId == g.runtimeId && t.counters.nativeProvider == g.counters.nativeProvider
    ensures NativesHold(t)
  {
    hide NativeId;
    SameNativeId(g, t);
    assert Natives(t) == Natives(g);
    forall k | k in Natives(t)
      ensures HoldsNativeId(t, k)
    {
      assert HoldsNativeId(g, k);
    }
  }

  lemma {:induction false} RunKeeps(h: Hash, routes: seq<Route>, g: Gateway, turns: seq<Turn>)
    requires OccurrenceCollisionFree(h) && FlightsValid(g.egress) && GatewayInv(h, g)
    requires |Run(h, routes, g, turns).egress.session.recorder.log| <= MAX_SAFE_INTEGER
    ensures GatewayInv(h, Run(h, routes, g, turns))
    ensures g.egress.session.recorder.log <= Run(h, routes, g, turns).egress.session.recorder.log
    decreases |turns|
  {
    hide Next, GatewayInv, FlightsValid;
    if turns != [] {
      NextKeepsValid(h, routes, g, turns[0]);
      RunGrows(h, routes, Next(h, routes, g, turns[0]), turns[1..]);
      NextKeeps(h, routes, g, turns[0]);
      RunKeeps(h, routes, Next(h, routes, g, turns[0]), turns[1..]);
    }
  }

  lemma {:induction false} RunGrows(h: Hash, routes: seq<Route>, g: Gateway, turns: seq<Turn>)
    requires FlightsValid(g.egress)
    ensures g.egress.session.recorder.log <= Run(h, routes, g, turns).egress.session.recorder.log
    decreases |turns|
  {
    hide Next, FlightsValid;
    if turns != [] {
      NextKeepsValid(h, routes, g, turns[0]);
      RunGrows(h, routes, Next(h, routes, g, turns[0]), turns[1..]);
    }
  }

  // ----- what that means -----

  lemma NewGatewayInv(h: Hash, session: string, createdAt: Time, runtimeId: string)
    requires StableId(session)
    ensures GatewayInv(h, NewGateway(session, createdAt, runtimeId))
  {
    hide RecorderInv, SessionInv;
    StartInv(h, session, createdAt);
  }

  /** In every schedule the accepted requests are the explicit and the native ones, and the frame count
      that the runtime verifier compares is twice their number exactly when no dispatch is in flight and
      none was left by an exception. */
  lemma AcceptedCount(h: Hash, routes: seq<Route>, session: string, createdAt: Time, runtimeId: string, turns: seq<Turn>)
    requires OccurrenceCollisionFree(h) && StableId(session)
    requires |Run(h, routes, NewGateway(session, createdAt, runtimeId), turns).egress.session.recorder.log| <= MAX_SAFE_INTEGER
    ensures var g := Run(h, routes, NewGateway(session, createdAt, runtimeId), turns);
            && g.counters.accepted == g.counters.explicitEnvelope + g.counters.nativeProvider
            && (g.egress.session.recorder.manifest.frameCount == 2 * g.counters.accepted
                <==> g.egress.flights == map[] && g.egress.stuck == {})
  {
    hide Run;
    NewGatewayInv(h, session, createdAt, runtimeId);
    RunKeeps(h, routes, NewGateway(session, createdAt, runtimeId), turns);
    hide LogSound, AccountsAgree, SentLogged, Tracked, FlightsOpen, NativesHold;
  }

  /** In every schedule at most one native attempt is in flight or left by an exception, and no two
      attempts ever record the same logical id and number. */
  lemma NativesNeverShareAnId(h: Hash, routes: seq<Route>, session: string, createdAt: Time, runtimeId: string, turns: seq<Turn>,
                              j: nat, k: nat)
    requires OccurrenceCollisionFree(h) && StableId(session)
    requires var g := Run(h, routes, NewGateway(session, createdAt, runtimeId), turns);
             && |g.egress.session.recorder.log| <= MAX_SAFE_INTEGER
             && j < |g.egress.session.handles| && k < |g.egress.session.handles| && j != k
    ensures var g := Run(h, routes, NewGateway(session, createdAt, runtimeId), turns);
            var (a, b) := (g.egress.session.handles[j].decision.body.attempt, g.egress.session.handles[k].decision.body.attempt);
            && (a.logicalId != b.logicalId || a.number != b.number)
            && !(j in Natives(g) && k in Natives(g))
  {
    hide Run, SessionInv, CountsAgree, NativesHold, SentLogged, Tracked, FlightsOpen, Counted, Natives;
    NewGatewayInv(h, session, createdAt, runtimeId);
    RunKeeps(h, routes, NewGateway(session, createdAt, runtimeId), turns);
    var g := Run(h, routes, NewGateway(session, createdAt, runtimeId), turns);
    HandlesDifferById(h, g.egress.session, j, k);
    if j in Natives(g) && k in Natives(g) {
      OneNative(h, g, j, k);
    }
  }
}
