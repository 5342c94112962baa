/** The governance router: one cost and evidence policy applied to one frozen request
    (src/governance-router.ts). */
module Governance {
  import opened Common

  datatype Stage = Diagnostic | Panel

  datatype PolicyBody = PolicyBody(
    id: string,
    version: string,
    minTaskValue: int,
    minReliability: int,
    maxDiagnosticBudget: int,
    maxPanelBudget: int,
    maxCostPerAccepted: int,
    minAttempts: int,
    minAccepted: int)

  datatype Policy = Policy(body: PolicyBody, sha: Digest)

  datatype RequestBody = RequestBody(
    id: string,
    study: string,
    stage: Stage,
    taskValue: int,
    reliability: int,
    spend: int,
    increment: int,
    attempted: int,
    accepted: int,
    resultSet: Option<Digest>,
    panelDefinition: Digest,
    approval: Option<Digest>)

  datatype Request = Request(body: RequestBody, sha: Digest)

  datatype Disposition = Refused | HumanReview | Eligible

  datatype Blocker =
    | TaskValueBelowMinimum
    | BudgetExceedsStageCap
    | ReliabilityBelowMinimum
    | AttemptFloorNotMet
    | AcceptedFloorNotMet
    | CostUnavailable
    | CostAboveMaximum
    | ApprovalRequired

  datatype Decision = Decision(
    disposition: Disposition,
    costPerAccepted: Option<int>,
    remainingBudget: int,
    blockers: set<Blocker>)

  datatype Hashed = PolicyContent(policy: PolicyBody) | RequestContent(request: RequestBody)

  type Hash = Hashed -> Digest

  datatype RouteError = PolicyInvalid | RequestInvalid

  // ----- validators -----

  predicate Bounded(value: int, minimum: int, maximum: int) { SafeInteger(value) && minimum <= value <= maximum }

  predicate Positive(value: int) { Bounded(value, 1, MAX_SAFE_INTEGER) }

  predicate ValidPolicy(p: PolicyBody) {
    && StableId(p.id) && StableId(p.version)
    && Bounded(p.minTaskValue, 0, 10_000) && Bounded(p.minReliability, 0, 10_000)
    && Positive(p.maxDiagnosticBudget) && Positive(p.maxPanelBudget) && Positive(p.maxCostPerAccepted)
    && Bounded(p.minAttempts, 1, 1_000_000) && Bounded(p.minAccepted, 1, 1_000_000)
    && p.maxPanelBudget >= p.maxDiagnosticBudget
  }

  predicate ValidRequest(r: RequestBody) {
    && StableId(r.id) && StableId(r.study)
    && Bounded(r.taskValue, 0, 10_000) && Bounded(r.reliability, 0, 10_000)
    && Bounded(r.spend, 0, MAX_SAFE_INTEGER) && Positive(r.increment)
    && Bounded(r.attempted, 0, 1_000_000) && Bounded(r.accepted, 0, 1_000_000)
    && SafeInteger(r.spend + r.increment)
    && r.accepted <= r.attempted
    && (r.stage == Diagnostic ==> r.attempted == 0 && r.accepted == 0 && r.resultSet.None? && r.approval.None?)
    && (r.stage == Panel ==> r.attempted != 0 && r.resultSet.Some?)
  }

  // ----- arithmetic -----

  /** ceilDivide, over integers of any size and a truncating division of non-negative operands. */
  function CeilDivide(dividend: int, divisor: int): (q: int)
    requires 0 <= dividend && 0 < divisor
  {
    (dividend + divisor - 1) / divisor
  }

  /** The least quotient that covers the dividend. */
  lemma CeilDivideIsLeast(dividend: int, divisor: int, q: int)
    requires 0 <= dividend && 0 < divisor
    ensures q >= CeilDivide(dividend, divisor) <==> q * divisor >= dividend
  {
    var c := CeilDivide(dividend, divisor);
    var rest := (dividend + divisor - 1) % divisor;
    assert c * divisor + rest == dividend + divisor - 1;
    if q >= c {
      Scales(c, q, divisor);
    } else {
      Scales(q, c - 1, divisor);
      assert (c - 1) * divisor == c * divisor - divisor;
    }
  }

  lemma Scales(a: int, b: int, factor: int)
    requires a <= b && 0 <= factor
    ensures a * factor <= b * factor
  {
  }

  /** So the cost test compares spend with the allowance for all accepted results, and stays safe. */
  lemma CostTestIsExact(spend: int, accepted: int, maximum: int)
    requires 0 <= spend && SafeInteger(spend) && 0 < accepted
    ensures CeilDivide(spend, accepted) <= maximum <==> spend <= maximum * accepted
    ensures SafeInteger(CeilDivide(spend, accepted))
  {
    CeilDivideIsLeast(spend, accepted, maximum);
    CeilDivideIsLeast(spend, accepted, spend);
    Scales(1, accepted, spend);
  }

  // ----- the decision -----

  function StageCap(p: PolicyBody, stage: Stage): int {
    if stage == Diagnostic then p.maxDiagnosticBudget else p.maxPanelBudget
  }

  function AtLeastZero(n: int): int { if n < 0 then 0 else n }

  /** Which blockers a request deserves. */
  predicate Blocks(p: PolicyBody, r: RequestBody, b: Blocker) {
    match b
    case TaskValueBelowMinimum => r.taskValue < p.minTaskValue
    case BudgetExceedsStageCap => r.spend + r.increment > StageCap(p, r.stage)
    case ReliabilityBelowMinimum => r.reliability < p.minReliability
    case AttemptFloorNotMet => r.stage == Panel && r.attempted < p.minAttempts
    case AcceptedFloorNotMet => r.stage == Panel && r.accepted < p.minAccepted
    case CostUnavailable => r.stage == Panel && r.accepted == 0
    case CostAboveMaximum => r.stage == Panel && r.accepted != 0 && r.spend > p.maxCostPerAccepted * r.accepted
    case ApprovalRequired => r.stage == Panel && r.approval.None?
  }

  predicate Hard(b: Blocker) { b in {TaskValueBelowMinimum, BudgetExceedsStageCap} }

  ghost predicate Decides(p: PolicyBody, r: RequestBody, d: Decision)
    requires ValidRequest(r)
  {
    && (forall b :: b in d.blockers <==> Blocks(p, r, b))
    && (d.disposition == Refused <==> exists b :: b in d.blockers && Hard(b))
    && (d.disposition == Eligible <==> d.blockers == {})
    && (d.costPerAccepted.Some? <==> r.stage == Panel && r.accepted != 0)
    && (d.costPerAccepted.Some? ==> d.costPerAccepted.value == CeilDivide(r.spend, r.accepted))
    && d.remainingBudget == AtLeastZero(StageCap(p, r.stage) - (r.spend + r.increment))
  }

  /** The panel half of the evaluation. */
  method PanelReview(p: PolicyBody, r: RequestBody) returns (review: set<Blocker>, cost: Option<int>)
    requires ValidRequest(r) && r.stage == Panel
    ensures forall b :: b in review <==> !Hard(b) && b != ReliabilityBelowMinimum && Blocks(p, r, b)
    ensures cost == if r.accepted == 0 then None else Some(CeilDivide(r.spend, r.accepted))
  {
    hide StableId, CeilDivide;
    review, cost := {}, None;
    if r.attempted < p.minAttempts { review := review + {AttemptFloorNotMet}; }
    if r.accepted < p.minAccepted { review := review + {AcceptedFloorNotMet}; }
    if r.accepted == 0 {
      review := review + {CostUnavailable};
    } else {
      cost := Some(CeilDivide(r.spend, r.accepted));
      CostTestIsExact(r.spend, r.accepted, p.maxCostPerAccepted);
      if cost.value > p.maxCostPerAccepted { review := review + {CostAboveMaximum}; }
    }
    if r.approval.None? { review := review + {ApprovalRequired}; }
  }

  /** evaluateGovernanceRoute */
  method EvaluateGovernanceRoute(h: Hash, policy: Policy, request: Request) returns (out: Result<Decision, RouteError>)
    ensures out == Err(PolicyInvalid) <==> !(ValidPolicy(policy.body) && policy.sha == h(PolicyContent(policy.body)))
    ensures out.Ok? ==> ValidRequest(request.body) && request.sha == h(RequestContent(request.body))
    ensures ValidPolicy(policy.body) && policy.sha == h(PolicyContent(policy.body))
            && ValidRequest(request.body) && request.sha == h(RequestContent(request.body)) ==>
              out.Ok? && Decides(policy.body, request.body, out.value)
  {
    hide StableId, CeilDivide;
    var p, r := policy.body, request.body;
    if !ValidPolicy(p) || policy.sha != h(PolicyContent(p)) { return Err(PolicyInvalid); }
    if !ValidRequest(r) || request.sha != h(RequestContent(r)) { return Err(RequestInvalid); }
    var hard: set<Blocker>, review: set<Blocker>, cost: Option<int> := {}, {}, None;
    var stageCap := StageCap(p, r.stage);
    var remaining := AtLeastZero(stageCap - r.spend);
    if r.taskValue < p.minTaskValue { hard := hard + {TaskValueBelowMinimum}; }
    if r.increment > remaining { hard := hard + {BudgetExceedsStageCap}; }
    assert forall b :: b in hard <==> Hard(b) && Blocks(p, r, b);
    if r.stage == Panel {
      review, cost := PanelReview(p, r);
    }
    if r.reliability < p.minReliability { review := review + {ReliabilityBelowMinimum}; }
    assert forall b :: b in review <==> !Hard(b) && Blocks(p, r, b);
    hide Blocks, ValidRequest, ValidPolicy, Hard;
    var disposition := if hard != {} then Refused else if review != {} then HumanReview else Eligible;
    assert hard != {} ==> exists b :: b in hard;
    out := Ok(Decision(disposition, cost, AtLeastZero(stageCap - (r.spend + r.increment)), hard + review));
  }

  // ----- decisions over inputs and over runs -----

  /** What the evaluation decides, as a function of policy and request. */
  function DispositionFor(p: PolicyBody, r: RequestBody): Disposition {
    if exists b: Blocker :: Blocks(p, r, b) && Hard(b) then Refused
    else if exists b: Blocker :: Blocks(p, r, b) then HumanReview
    else Eligible
  }

  lemma DecidesDisposition(p: PolicyBody, r: RequestBody, d: Decision)
    requires ValidRequest(r) && Decides(p, r, d)
    ensures d.disposition == DispositionFor(p, r)
  {
    hide Blocks, Hard, CeilDivide;
    if d.blockers == {} {
      forall b: Blocker ensures !Blocks(p, r, b) { assert b !in d.blockers; }
    }
  }

  function Strictness(d: Disposition): nat {
    match d case Refused => 2 case HumanReview => 1 case Eligible => 0
  }

  /** A policy at least as generous in every respect. */
  predicate Looser(p: PolicyBody, q: PolicyBody) {
    && q.minTaskValue <= p.minTaskValue && q.minReliability <= p.minReliability
    && p.maxDiagnosticBudget <= q.maxDiagnosticBudget && p.maxPanelBudget <= q.maxPanelBudget
    && p.maxCostPerAccepted <= q.maxCostPerAccepted && q.minAttempts <= p.minAttempts && q.minAccepted <= p.minAccepted
  }

  /** A request at least as good in every respect, for no more money. */
  predicate Better(r: RequestBody, s: RequestBody) {
    && s.stage == r.stage && r.taskValue <= s.taskValue && r.reliability <= s.reliability
    && s.spend <= r.spend && s.spend + s.increment <= r.spend + r.increment
    && r.attempted <= s.attempted && r.accepted <= s.accepted
    && (r.approval.Some? ==> s.approval.Some?)
  }

  lemma BetterIsNoHarder(p: PolicyBody, q: PolicyBody, r: RequestBody, s: RequestBody, b: Blocker)
    requires ValidRequest(r) && Looser(p, q) && Better(r, s) && Blocks(q, s, b) && b != CostAboveMaximum
    ensures Blocks(p, r, b)
  {
    hide StableId;
  }

  /** A cost above the maximum was one before, unless there was no accepted result at all. */
  lemma CostWasBlockedBefore(p: PolicyBody, q: PolicyBody, r: RequestBody, s: RequestBody)
    requires ValidRequest(r) && ValidPolicy(p) && Looser(p, q) && Better(r, s) && Blocks(q, s, CostAboveMaximum)
    ensures Blocks(p, r, CostAboveMaximum) || Blocks(p, r, CostUnavailable)
  {
    hide StableId;
    Scales(r.accepted, s.accepted, p.maxCostPerAccepted);
    Scales(p.maxCostPerAccepted, q.maxCostPerAccepted, s.accepted);
  }

  lemma DispositionForIsMonotone(p: PolicyBody, q: PolicyBody, r: RequestBody, s: RequestBody)
    requires ValidPolicy(p) && ValidRequest(r) && Looser(p, q) && Better(r, s)
    ensures Strictness(DispositionFor(q, s)) <= Strictness(DispositionFor(p, r))
  {
    hide ValidPolicy, ValidRequest, Looser, Better, Blocks;
    forall b: Blocker | Blocks(q, s, b)
      ensures if b == CostAboveMaximum then Blocks(p, r, CostAboveMaximum) || Blocks(p, r, CostUnavailable) else Blocks(p, r, b)
    {
      if b == CostAboveMaximum {
        CostWasBlockedBefore(p, q, r, s);
      } else {
        BetterIsNoHarder(p, q, r, s, b);
      }
    }
  }

  /** Of two evaluations, the one under looser policy of the better request is never stricter: raising
      value, reliability, caps or results, or adding an approval, cannot hurt. */
  lemma DispositionIsMonotone(p: PolicyBody, q: PolicyBody, r: RequestBody, s: RequestBody, d: Decision, e: Decision)
    requires ValidPolicy(p) && ValidRequest(r) && ValidRequest(s) && Looser(p, q) && Better(r, s)
    requires Decides(p, r, d) && Decides(q, s, e)
    ensures Strictness(e.disposition) <= Strictness(d.disposition)
  {
    hide ValidPolicy, ValidRequest, Looser, Better, Decides, DispositionFor;
    DecidesDisposition(p, r, d);
    DecidesDisposition(q, s, e);
    DispositionForIsMonotone(p, q, r, s);
  }

  // ----- spend carried forward -----

  /** Requests of one stage, each starting from the spend the one before projected. */
  predicate Carried(requests: seq<RequestBody>) {
    forall i :: 1 <= i < |requests| ==>
      && requests[i].stage == requests[i - 1].stage
      && requests[i].spend == requests[i - 1].spend + requests[i - 1].increment
  }

  function Increments(requests: seq<RequestBody>): int {
    if requests == [] then 0 else Increments(requests[..|requests| - 1]) + requests[|requests| - 1].increment
  }

  lemma {:induction false} SpendCarries(requests: seq<RequestBody>)
    requires requests != [] && Carried(requests)
    ensures requests[|requests| - 1].spend + requests[|requests| - 1].increment == requests[0].spend + Increments(requests)
    ensures requests[|requests| - 1].stage == requests[0].stage
  {
    var n := |requests| - 1;
    if n > 0 {
      var init := requests[..n];
      assert forall i :: 0 <= i < |init| ==> init[i] == requests[i];
      SpendCarries(init);
      assert requests[n].stage == requests[n - 1].stage;
    } else {
      assert requests[..0] == [];
    }
  }

  /** Over any run of carried requests that ends without a refusal, what was spent before, what the run
      spent and what remains are together the stage cap. */
  lemma BudgetIsConserved(p: PolicyBody, requests: seq<RequestBody>, d: Decision)
    requires requests != [] && Carried(requests) && ValidRequest(requests[|requests| - 1])
    requires Decides(p, requests[|requests| - 1], d) && d.disposition != Refused
    ensures requests[0].spend + Increments(requests) + d.remainingBudget == StageCap(p, requests[0].stage)
  {
    hide Carried, CeilDivide, Increments;
    SpendCarries(requests);
    var last := requests[|requests| - 1];
    assert Hard(BudgetExceedsStageCap);
    assert !Blocks(p, last, BudgetExceedsStageCap);
  }

  /** And a run is refused for its budget exactly when it would overdraw the cap. */
  lemma BudgetRefusal(p: PolicyBody, requests: seq<RequestBody>)
    requires requests != [] && Carried(requests)
    ensures Blocks(p, requests[|requests| - 1], BudgetExceedsStageCap)
            <==> requests[0].spend + Increments(requests) > StageCap(p, requests[0].stage)
  {
    hide Carried, Increments;
    SpendCarries(requests);
  }

  // ----- inputs and decisions in numbers -----

  /** The inputs that are evaluated, in numbers. */
  lemma InputRules(p: PolicyBody, r: RequestBody)
    ensures ValidPolicy(p) <==>
              && StableId(p.id) && StableId(p.version)
              && 0 <= p.minTaskValue <= 10_000 && 0 <= p.minReliability <= 10_000
              && 1 <= p.maxDiagnosticBudget <= p.maxPanelBudget <= 9_007_199_254_740_991
              && 1 <= p.maxCostPerAccepted <= 9_007_199_254_740_991
              && 1 <= p.minAttempts <= 1_000_000 && 1 <= p.minAccepted <= 1_000_000
    ensures ValidRequest(r) <==>
              && StableId(r.id) && StableId(r.study)
              && 0 <= r.taskValue <= 10_000 && 0 <= r.reliability <= 10_000
              && 0 <= r.spend && 1 <= r.increment && r.spend + r.increment <= 9_007_199_254_740_991
              && 0 <= r.accepted <= r.attempted <= 1_000_000
              && if r.stage.Panel? then 1 <= r.attempted && r.resultSet.Some?
                 else r.attempted == 0 && r.resultSet.None? && r.approval.None?
  {
    hide StableId;
  }

  /** The decision in numbers: a refusal is for value or budget alone; eligible means that every floor, cap
      and approval of the stage is met; the cost is the least whole one that covers the spend. */
  lemma DecisionHolds(p: PolicyBody, r: RequestBody, d: Decision)
    requires ValidRequest(r) && Decides(p, r, d)
    ensures var budget := if r.stage.Panel? then p.maxPanelBudget else p.maxDiagnosticBudget;
            && (d.disposition == Refused <==> r.taskValue < p.minTaskValue || budget < r.spend + r.increment)
            && (d.disposition == Eligible <==>
                  && p.minTaskValue <= r.taskValue && p.minReliability <= r.reliability && r.spend + r.increment <= budget
                  && (r.stage.Panel? ==>
                        && p.minAttempts <= r.attempted && p.minAccepted <= r.accepted && 0 < r.accepted
                        && r.spend <= p.maxCostPerAccepted * r.accepted && r.approval.Some?))
            && d.remainingBudget == (if budget < r.spend + r.increment then 0 else budget - r.spend - r.increment)
    ensures d.costPerAccepted.Some? <==> r.stage.Panel? && 0 < r.accepted
    ensures d.costPerAccepted.Some? ==>
              var cost := d.costPerAccepted.value;
              cost * r.accepted >= r.spend && forall q :: q * r.accepted >= r.spend ==> cost <= q
  {
    hide StableId, CeilDivide;
    BlockersHold(p, r, d);
    if r.stage.Panel? && 0 < r.accepted {
      var cost := CeilDivide(r.spend, r.accepted);
      CeilDivideIsLeast(r.spend, r.accepted, cost);
      forall q | q * r.accepted >= r.spend
        ensures cost <= q
      {
        CeilDivideIsLeast(r.spend, r.accepted, q);
      }
    }
    hide Blocks, ValidRequest;
    if d.blockers == {} {
      forall b: Blocker ensures b !in d.blockers { }
    } else {
      var b: Blocker :| b in d.blockers;
      EveryBlocker(b);
    }
  }

  lemma EveryBlocker(b: Blocker)
    ensures || b == TaskValueBelowMinimum || b == BudgetExceedsStageCap || b == ReliabilityBelowMinimum
            || b == AttemptFloorNotMet || b == AcceptedFloorNotMet || b == CostUnavailable || b == CostAboveMaximum
            || b == ApprovalRequired
  {
    assert b.TaskValueBelowMinimum? || b.BudgetExceedsStageCap? || b.ReliabilityBelowMinimum? || b.AttemptFloorNotMet?
           || b.AcceptedFloorNotMet? || b.CostUnavailable? || b.CostAboveMaximum? || b.ApprovalRequired?;
  }

  /** Each blocker in numbers. */
  lemma BlockersHold(p: PolicyBody, r: RequestBody, d: Decision)
    requires ValidRequest(r) && Decides(p, r, d)
    ensures TaskValueBelowMinimum in d.blockers <==> r.taskValue < p.minTaskValue
    ensures BudgetExceedsStageCap in d.blockers <==>
              (if r.stage.Panel? then p.maxPanelBudget else p.maxDiagnosticBudget) < r.spend + r.increment
    ensures ReliabilityBelowMinimum in d.blockers <==> r.reliability < p.minReliability
    ensures AttemptFloorNotMet in d.blockers <==> r.stage.Panel? && r.attempted < p.minAttempts
    ensures AcceptedFloorNotMet in d.blockers <==> r.stage.Panel? && r.accepted < p.minAccepted
    ensures CostUnavailable in d.blockers <==> r.stage.Panel? && r.accepted == 0
    ensures CostAboveMaximum in d.blockers <==> r.stage.Panel? && p.maxCostPerAccepted * r.accepted < r.spend && 0 < r.accepted
    ensures ApprovalRequired in d.blockers <==> r.stage.Panel? && r.approval.None?
  {
    hide StableId, CeilDivide;
  }
}
