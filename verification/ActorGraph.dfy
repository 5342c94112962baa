/** The declared-actor graph of a verified SDK bundle: one pass over the decisions that updates shared
    actor rows (src/actor-graph.ts). The bundle check itself is a precondition here. */
module ActorGraph {
  import opened Common
  import opened TextUnits
  import opened CanonicalOrder

  datatype Operation = Operation(actor: Text, principal: Text, occurrence: Digest, parent: Option<Digest>)

  datatype Ended = Ended(dispatched: bool, outcome: string)

  datatype Frame = DecisionFrame(operation: Operation) | ActionFrame(occurrence: Digest, ended: Ended)

  datatype Edge = Edge(
    parent: Digest,
    child: Digest,
    source: Text,
    target: Text,
    crossActor: bool,
    parentDispatched: bool,
    parentOutcome: string,
    parentEndedFirst: bool)

  datatype Row = Row(
    principals: set<Text>,
    operations: nat,
    dispatched: nat,
    roots: nat,
    inbound: nat,
    outbound: nat,
    maximumDepth: nat)

  const EMPTY_ROW := Row({}, 0, 0, 0, 0, 0, 0)

  datatype Report = Report(
    operations: nat,
    roots: nat,
    crossEdges: nat,
    maximumDepth: nat,
    actors: seq<Keyed<Row>>,
    edges: seq<Edge>)

  datatype GraphError = ActionMissing | ParentMissing | ParentNotPrior

  // ----- the maps the analysis starts from -----

  function Decisions(frames: seq<Frame>): seq<Operation> {
    if frames == [] then []
    else
      var init := Decisions(frames[..|frames| - 1]);
      match frames[|frames| - 1]
      case DecisionFrame(op) => init + [op]
      case ActionFrame(_, _) => init
  }

  function Actions(frames: seq<Frame>): map<Digest, Ended> {
    if frames == [] then map[]
    else
      var init := Actions(frames[..|frames| - 1]);
      match frames[|frames| - 1]
      case DecisionFrame(_) => init
      case ActionFrame(o, ended) => init[o := ended]
  }

  /** The last position of a frame of the given kind and occurrence, or -1. */
  function FrameIndex(frames: seq<Frame>, action: bool, o: Digest): int {
    if frames == [] then -1
    else
      var last := frames[|frames| - 1];
      if (action && last.ActionFrame? && last.occurrence == o) || (!action && last.DecisionFrame? && last.operation.occurrence == o)
      then |frames| - 1
      else FrameIndex(frames[..|frames| - 1], action, o)
  }

  predicate DistinctOccurrences(ops: seq<Operation>) {
    forall i, j :: 0 <= i < j < |ops| ==> ops[i].occurrence != ops[j].occurrence
  }

  // ----- what the graph says -----

  /** The parent of operation k is operation p, declared before it. */
  predicate IsParent(ops: seq<Operation>, p: nat, k: nat) {
    p < k < |ops| && ops[k].parent == Some(ops[p].occurrence)
  }

  function ParentIndex(ops: seq<Operation>, k: nat): (p: Option<nat>)
    requires k < |ops|
    ensures p.Some? ==> IsParent(ops, p.value, k)
    ensures p.None? ==> forall i: nat :: !IsParent(ops, i, k)
  {
    Search(ops, k, k)
  }

  function Search(ops: seq<Operation>, k: nat, n: nat): (p: Option<nat>)
    requires n <= k < |ops|
    ensures p.Some? ==> p.value < n && IsParent(ops, p.value, k)
    ensures p.None? ==> forall i: nat :: i < n ==> !IsParent(ops, i, k)
  {
    if n == 0 then None
    else if IsParent(ops, n - 1, k) then Some(n - 1)
    else Search(ops, k, n - 1)
  }

  /** Operation k has an action, and a parent, if it names one, that was declared before it. */
  predicate Linked(ops: seq<Operation>, actions: map<Digest, Ended>, k: nat)
    requires k < |ops|
  {
    ops[k].occurrence in actions && (ops[k].parent.Some? ==> ParentIndex(ops, k).Some?)
  }

  predicate AllLinked(ops: seq<Operation>, actions: map<Digest, Ended>, n: nat)
    requires n <= |ops|
  {
    forall k :: 0 <= k < n ==> Linked(ops, actions, k)
  }

  /** The number of parent links from operation k to a root. */
  function Depth(ops: seq<Operation>, k: nat): nat
    requires k < |ops|
    decreases k
  {
    if ops[k].parent.None? then 0
    else
      match ParentIndex(ops, k)
      case None => 0
      case Some(p) => Depth(ops, p) + 1
  }

  predicate CrossActor(ops: seq<Operation>, k: nat)
    requires k < |ops|
  {
    ops[k].parent.Some? && ParentIndex(ops, k).Some? && ops[ParentIndex(ops, k).value].actor != ops[k].actor
  }

  function EdgeOf(frames: seq<Frame>, ops: seq<Operation>, actions: map<Digest, Ended>, k: nat): Edge
    requires k < |ops| && ParentIndex(ops, k).Some? && ops[ParentIndex(ops, k).value].occurrence in actions
  {
    var parent := ops[ParentIndex(ops, k).value];
    var ended := actions[parent.occurrence];
    Edge(parent.occurrence, ops[k].occurrence, parent.actor, ops[k].actor, parent.actor != ops[k].actor, ended.dispatched,
         ended.outcome, FrameIndex(frames, true, parent.occurrence) < FrameIndex(frames, false, ops[k].occurrence))
  }

  function Edges(frames: seq<Frame>, ops: seq<Operation>, actions: map<Digest, Ended>, n: nat): seq<Edge>
    requires n <= |ops| && AllLinked(ops, actions, n)
  {
    if n == 0 then []
    else
      var init := Edges(frames, ops, actions, n - 1);
      assert Linked(ops, actions, n - 1);
      if ops[n - 1].parent.Some? then
        assert Linked(ops, actions, ParentIndex(ops, n - 1).value);
        init + [EdgeOf(frames, ops, actions, n - 1)]
      else init
  }

  function Max(a: nat, b: nat): nat { if a < b then b else a }

  function OwnStep(row: Row, op: Operation, dispatchOccurred: bool, crossActor: bool, depth: nat): Row {
    Row(row.principals + {op.principal}, row.operations + 1, row.dispatched + One(dispatchOccurred),
        row.roots + One(op.parent.None?), row.inbound + One(crossActor), row.outbound, Max(row.maximumDepth, depth))
  }

  /** What operation k adds to the row of actor a. */
  function RowStep(row: Row, ops: seq<Operation>, actions: map<Digest, Ended>, k: nat, a: Text): Row
    requires k < |ops|
  {
    var op, cross := ops[k], CrossActor(ops, k);
    var dispatchOccurred := op.occurrence in actions && actions[op.occurrence].dispatched;
    if op.actor == a then OwnStep(row, op, dispatchOccurred, cross, Depth(ops, k))
    else if cross && ops[ParentIndex(ops, k).value].actor == a then row.(outbound := row.outbound + 1)
    else row
  }

  /** The row of one actor after the first n operations. */
  function RowOf(ops: seq<Operation>, actions: map<Digest, Ended>, n: nat, a: Text): Row
    requires n <= |ops|
  {
    if n == 0 then EMPTY_ROW else RowStep(RowOf(ops, actions, n - 1, a), ops, actions, n - 1, a)
  }

  function One(b: bool): nat { if b then 1 else 0 }

  /** The actors of the first n operations in the order they first appear. */
  function ActorOrder(ops: seq<Operation>, n: nat): seq<Text>
    requires n <= |ops|
  {
    if n == 0 then []
    else
      var init := ActorOrder(ops, n - 1);
      if ops[n - 1].actor in init then init else init + [ops[n - 1].actor]
  }

  function RowsOf(ops: seq<Operation>, actions: map<Digest, Ended>, order: seq<Text>): seq<Keyed<Row>> {
    if order == [] then []
    else RowsOf(ops, actions, order[..|order| - 1]) + [Keyed(order[|order| - 1], RowOf(ops, actions, |ops|, order[|order| - 1]))]
  }

  function RootsUpTo(ops: seq<Operation>, n: nat): nat
    requires n <= |ops|
  {
    if n == 0 then 0 else RootsUpTo(ops, n - 1) + One(ops[n - 1].parent.None?)
  }

  function CrossUpTo(ops: seq<Operation>, n: nat): nat
    requires n <= |ops|
  {
    if n == 0 then 0 else CrossUpTo(ops, n - 1) + One(CrossActor(ops, n - 1))
  }

  function DepthUpTo(ops: seq<Operation>, n: nat): nat
    requires n <= |ops|
  {
    if n == 0 then 0 else Max(DepthUpTo(ops, n - 1), Depth(ops, n - 1))
  }

  function ReportOf(frames: seq<Frame>): Report
    requires AllLinked(Decisions(frames), Actions(frames), |Decisions(frames)|)
  {
    var ops, actions := Decisions(frames), Actions(frames);
    Report(|ops|, RootsUpTo(ops, |ops|), CrossUpTo(ops, |ops|), DepthUpTo(ops, |ops|),
           SortByKey(RowsOf(ops, actions, ActorOrder(ops, |ops|))), Edges(frames, ops, actions, |ops|))
  }

  // ----- the pass -----

  class ActorRow {
    var principals: set<Text>
    var operations: nat
    var dispatched: nat
    var roots: nat
    var inbound: nat
    var outbound: nat
    var maximumDepth: nat

    constructor ()
      ensures View() == EMPTY_ROW
    {
      principals := {};
      operations, dispatched, roots, inbound, outbound, maximumDepth := 0, 0, 0, 0, 0, 0;
    }

    function View(): Row
      reads this
    {
      Row(principals, operations, dispatched, roots, inbound, outbound, maximumDepth)
    }

    /** One of this actor's own operations. */
    method Own(op: Operation, dispatchOccurred: bool, crossActor: bool, depth: nat)
      modifies this
      ensures View() == OwnStep(old(View()), op, dispatchOccurred, crossActor, depth)
    {
      principals := principals + {op.principal};
      operations := operations + 1;
      if dispatchOccurred { dispatched := dispatched + 1; }
      if op.parent.None? { roots := roots + 1; }
      if crossActor { inbound := inbound + 1; }
      maximumDepth := Max(maximumDepth, depth);
    }

    /** Another actor's operation whose parent is this actor's. */
    method Reach()
      modifies this
      ensures View() == old(View()).(outbound := old(outbound) + 1)
    {
      outbound := outbound + 1;
    }
  }

  /** The rows are separate objects, one for each actor so far, holding what RowOf says. */
  ghost predicate RowsMatch(rows: map<Text, ActorRow>, ops: seq<Operation>, actions: map<Digest, Ended>, n: nat)
    requires n <= |ops|
    reads rows.Values
  {
    && (forall a, b :: a in rows && b in rows && a != b ==> rows[a] != rows[b])
    && (forall a :: a in rows ==> rows[a].View() == RowOf(ops, actions, n, a))
  }

  lemma {:induction false} OrderListsActors(ops: seq<Operation>, n: nat, i: nat)
    requires i < n <= |ops|
    ensures ops[i].actor in ActorOrder(ops, n)
    decreases n
  {
    if i < n - 1 { OrderListsActors(ops, n - 1, i); }
  }

  lemma {:induction false} UnlistedRowIsEmpty(ops: seq<Operation>, actions: map<Digest, Ended>, n: nat, a: Text)
    requires n <= |ops| && a !in ActorOrder(ops, n)
    ensures RowOf(ops, actions, n, a) == EMPTY_ROW
    decreases n
  {
    if n > 0 {
      UnlistedRowIsEmpty(ops, actions, n - 1, a);
      if CrossActor(ops, n - 1) {
        OrderListsActors(ops, n, ParentIndex(ops, n - 1).value);
      }
    }
  }

  /** Find or make the row of the next operation's actor. */
  method ActorOf(rows: map<Text, ActorRow>, order: seq<Text>, a: Text,
                 ghost ops: seq<Operation>, ghost actions: map<Digest, Ended>, ghost k: nat)
    returns (row: ActorRow, all: map<Text, ActorRow>, listed: seq<Text>)
    requires k < |ops| && a == ops[k].actor
    requires RowsMatch(rows, ops, actions, k) && order == ActorOrder(ops, k) && (forall x :: x in rows <==> x in order)
    ensures RowsMatch(all, ops, actions, k) && listed == ActorOrder(ops, k + 1) && (forall x :: x in all <==> x in listed)
    ensures a in all && all[a] == row && (forall x :: x in order ==> x in all)
    ensures forall x :: x in all ==> fresh(all[x]) || (x in rows && all[x] == rows[x])
  {
    hide RowOf, ActorOrder;
    NextListed(ops, actions, k);
    if a in rows {
      row, all, listed := rows[a], rows, order;
    } else {
      row := new ActorRow();
      all, listed := rows[a := row], order + [a];
    }
  }

  /** Depths by occurrence, as far as the pass has come. */
  ghost predicate DepthsMatch(depths: map<Digest, nat>, ops: seq<Operation>, n: nat)
    requires n <= |ops|
  {
    && (forall i :: 0 <= i < n ==> ops[i].occurrence in depths && depths[ops[i].occurrence] == Depth(ops, i))
    && (forall o :: o in depths ==> Occurs(ops, n, o))
  }

  predicate Occurs(ops: seq<Operation>, n: nat, o: Digest)
    requires n <= |ops|
  {
    exists i :: 0 <= i < n && ops[i].occurrence == o
  }

  lemma KnownDepthIsParent(depths: map<Digest, nat>, ops: seq<Operation>, k: nat)
    requires k < |ops| && DepthsMatch(depths, ops, k) && ops[k].parent.Some?
    ensures ops[k].parent.value in depths <==> ParentIndex(ops, k).Some?
    ensures ParentIndex(ops, k).Some? ==>
              var p := ParentIndex(ops, k).value;
              p < k && ops[p].occurrence == ops[k].parent.value && depths[ops[k].parent.value] + 1 == Depth(ops, k)
  {
    if ops[k].parent.value in depths {
      assert Occurs(ops, k, ops[k].parent.value);
      var i :| 0 <= i < k && ops[i].occurrence == ops[k].parent.value;
      assert IsParent(ops, i, k);
    }
  }

  lemma DepthsGrow(depths: map<Digest, nat>, ops: seq<Operation>, k: nat)
    requires k < |ops| && DistinctOccurrences(ops) && DepthsMatch(depths, ops, k)
    ensures DepthsMatch(depths[ops[k].occurrence := Depth(ops, k)], ops, k + 1)
  {
    hide Depth;
    var grown := depths[ops[k].occurrence := Depth(ops, k)];
    forall i | 0 <= i < k + 1
      ensures ops[i].occurrence in grown && grown[ops[i].occurrence] == Depth(ops, i)
    {
      assert i < k ==> ops[i].occurrence != ops[k].occurrence;
    }
    forall o | o in grown
      ensures Occurs(ops, k + 1, o)
    {
      if o == ops[k].occurrence {
        assert 0 <= k < k + 1;
      } else {
        assert Occurs(ops, k, o);
      }
    }
  }

  /** The operation that declared the parent of operation k. */
  function ParentOf(ops: seq<Operation>, k: nat): Option<Operation>
    requires k < |ops|
  {
    match ParentIndex(ops, k)
    case None => None
    case Some(p) => Some(ops[p])
  }

  /** Updating the rows for operation k: its own actor's, and across actors its parent's. */
  method Visit(rows: map<Text, ActorRow>, order: seq<Text>, op: Operation, dispatchOccurred: bool, parent: Option<Operation>,
               depth: nat, ghost ops: seq<Operation>, ghost actions: map<Digest, Ended>, ghost k: nat)
    returns (all: map<Text, ActorRow>, listed: seq<Text>)
    requires k < |ops| && Linked(ops, actions, k) && op == ops[k] && dispatchOccurred == actions[op.occurrence].dispatched
    requires parent == ParentOf(ops, k) && depth == Depth(ops, k)
    requires RowsMatch(rows, ops, actions, k) && order == ActorOrder(ops, k) && (forall x :: x in rows <==> x in order)
    modifies rows.Values
    ensures RowsMatch(all, ops, actions, k + 1) && listed == ActorOrder(ops, k + 1) && (forall x :: x in all <==> x in listed)
    ensures forall a :: a in all ==> fresh(all[a]) || (a in rows && all[a] == rows[a])
  {
    hide Depth, ActorOrder, RowOf, ParentOf, PassStep;
    var current;
    current, all, listed := ActorOf(rows, order, op.actor, ops, actions, k);
    hide Linked;
    if parent.Some? { ParentListed(ops, k); }
    UpdateRows(all, current, op, dispatchOccurred, parent, depth);
    forall a | a in all
      ensures all[a].View() == RowOf(ops, actions, k + 1, a)
    {
      RowAdvances(ops, actions, k, a, dispatchOccurred, parent, depth);
    }
  }

  /** What the pass adds to the row of actor a for one operation. */
  function PassStep(row: Row, a: Text, op: Operation, dispatchOccurred: bool, parent: Option<Operation>, depth: nat): Row {
    var crossActor := parent.Some? && parent.value.actor != op.actor;
    if op.actor == a then OwnStep(row, op, dispatchOccurred, crossActor, depth)
    else if crossActor && parent.value.actor == a then row.(outbound := row.outbound + 1)
    else row
  }

  /** The shared rows, updated in place. */
  method UpdateRows(all: map<Text, ActorRow>, current: ActorRow, op: Operation, dispatchOccurred: bool,
                    parent: Option<Operation>, depth: nat)
    requires op.actor in all && all[op.actor] == current && (parent.Some? ==> parent.value.actor in all)
    requires forall a, b :: a in all && b in all && a != b ==> all[a] != all[b]
    modifies all.Values
    ensures forall a :: a in all ==> all[a].View() == PassStep(old(all[a].View()), a, op, dispatchOccurred, parent, depth)
  {
    hide OwnStep;
    var crossActor := parent.Some? && parent.value.actor != op.actor;
    if crossActor {
      all[parent.value.actor].Reach();
    }
    current.Own(op, dispatchOccurred, crossActor, depth);
  }

  /** What operation k adds to a row, in terms of what the pass has at hand. */
  lemma RowAdvances(ops: seq<Operation>, actions: map<Digest, Ended>, k: nat, a: Text, dispatchOccurred: bool,
                parent: Option<Operation>, depth: nat)
    requires k < |ops| && ops[k].occurrence in actions && dispatchOccurred == actions[ops[k].occurrence].dispatched
    requires parent == ParentOf(ops, k) && depth == Depth(ops, k)
    ensures RowOf(ops, actions, k + 1, a) == PassStep(RowOf(ops, actions, k, a), a, ops[k], dispatchOccurred, parent, depth)
  {
    hide Depth, OwnStep;
  }

  lemma NextRow(ops: seq<Operation>, actions: map<Digest, Ended>, k: nat, a: Text)
    requires k < |ops|
    ensures RowOf(ops, actions, k + 1, a) == RowStep(RowOf(ops, actions, k, a), ops, actions, k, a)
  {
  }

  lemma ParentListed(ops: seq<Operation>, k: nat)
    requires k < |ops| && ParentOf(ops, k).Some?
    ensures ParentOf(ops, k).value.actor in ActorOrder(ops, k)
  {
    OrderListsActors(ops, k, ParentIndex(ops, k).value);
  }

  lemma NextListed(ops: seq<Operation>, actions: map<Digest, Ended>, k: nat)
    requires k < |ops|
    ensures var order := ActorOrder(ops, k);
            ActorOrder(ops, k + 1) == (if ops[k].actor in order then order else order + [ops[k].actor])
    ensures ops[k].actor !in ActorOrder(ops, k) ==> RowOf(ops, actions, k, ops[k].actor) == EMPTY_ROW
  {
    if ops[k].actor !in ActorOrder(ops, k) {
      UnlistedRowIsEmpty(ops, actions, k, ops[k].actor);
    }
  }

  // ----- the maps built from the frames -----

  /** The decision frames in order. */
  method ListOperations(frames: seq<Frame>) returns (ops: seq<Operation>)
    ensures ops == Decisions(frames)
  {
    ops := [];
    assert frames[..|frames|] == frames;
    for i := 0 to |frames|
      invariant ops == Decisions(frames[..i])
    {
      assert frames[..i + 1][..i] == frames[..i];
      if frames[i].DecisionFrame? { ops := ops + [frames[i].operation]; }
    }
  }

  /** byOccurrence */
  method MapOperations(ops: seq<Operation>) returns (byOccurrence: map<Digest, Operation>)
    requires DistinctOccurrences(ops)
    ensures forall o :: o in byOccurrence <==> Occurs(ops, |ops|, o)
    ensures forall i :: 0 <= i < |ops| ==> ops[i].occurrence in byOccurrence && byOccurrence[ops[i].occurrence] == ops[i]
  {
    byOccurrence := map[];
    for n := 0 to |ops|
      invariant forall i :: 0 <= i < n ==> ops[i].occurrence in byOccurrence && byOccurrence[ops[i].occurrence] == ops[i]
      invariant forall o :: o in byOccurrence ==> Occurs(ops, n, o)
    {
      byOccurrence := byOccurrence[ops[n].occurrence := ops[n]];
      forall o | o in byOccurrence
        ensures Occurs(ops, n + 1, o)
      {
        OccursGrows(ops, n, o);
      }
    }
  }

  lemma OccursGrows(ops: seq<Operation>, n: nat, o: Digest)
    requires n < |ops| && (Occurs(ops, n, o) || o == ops[n].occurrence)
    ensures Occurs(ops, n + 1, o)
  {
  }

  /** actionsByOccurrence */
  method MapActions(frames: seq<Frame>) returns (actions: map<Digest, Ended>)
    ensures actions == Actions(frames)
  {
    actions := map[];
    assert frames[..|frames|] == frames;
    for i := 0 to |frames|
      invariant actions == Actions(frames[..i])
    {
      assert frames[..i + 1][..i] == frames[..i];
      if frames[i].ActionFrame? { actions := actions[frames[i].occurrence := frames[i].ended]; }
    }
  }

  /** frameIndices, by kind and occurrence. */
  method MapIndices(frames: seq<Frame>) returns (indices: map<(bool, Digest), int>)
    ensures forall action, o :: (action, o) in indices <==> FrameIndex(frames, action, o) >= 0
    ensures forall action, o :: (action, o) in indices ==> indices[(action, o)] == FrameIndex(frames, action, o)
  {
    indices := map[];
    assert frames[..|frames|] == frames;
    for i := 0 to |frames|
      invariant forall action, o :: (action, o) in indices <==> FrameIndex(frames[..i], action, o) >= 0
      invariant forall action, o :: (action, o) in indices ==> indices[(action, o)] == FrameIndex(frames[..i], action, o)
    {
      assert frames[..i + 1][..i] == frames[..i];
      match frames[i] {
        case DecisionFrame(op) => indices := indices[(false, op.occurrence) := i];
        case ActionFrame(o, _) => indices := indices[(true, o) := i];
      }
    }
  }

  lemma {:induction false} ActionIsIndexed(frames: seq<Frame>, o: Digest)
    requires o in Actions(frames)
    ensures FrameIndex(frames, true, o) >= 0
  {
    var last := frames[|frames| - 1];
    if !(last.ActionFrame? && last.occurrence == o) { ActionIsIndexed(frames[..|frames| - 1], o); }
  }

  lemma {:induction false} DecisionIsIndexed(frames: seq<Frame>, k: nat)
    requires k < |Decisions(frames)|
    ensures FrameIndex(frames, false, Decisions(frames)[k].occurrence) >= 0
  {
    var init := Decisions(frames[..|frames| - 1]);
    if k < |init| { DecisionIsIndexed(frames[..|frames| - 1], k); }
  }

  // ----- the whole analysis -----

  /** Operation k is the first that the analysis cannot link, and this is what it lacks. */
  predicate FaultAt(ops: seq<Operation>, actions: map<Digest, Ended>, k: nat, e: GraphError)
    requires k < |ops|
  {
    && AllLinked(ops, actions, k)
    && match e
       case ActionMissing => ops[k].occurrence !in actions
       case ParentMissing =>
         ops[k].occurrence in actions && ops[k].parent.Some? && !Occurs(ops, |ops|, ops[k].parent.value)
       case ParentNotPrior =>
         && ops[k].occurrence in actions && ops[k].parent.Some?
         && Occurs(ops, |ops|, ops[k].parent.value) && !Occurs(ops, k, ops[k].parent.value)
  }

  lemma FaultIsUnlinked(ops: seq<Operation>, actions: map<Digest, Ended>, k: nat, e: GraphError)
    requires k < |ops| && FaultAt(ops, actions, k, e)
    ensures !Linked(ops, actions, k) && !AllLinked(ops, actions, |ops|)
  {
  }

  /** What the maps hold about the parent of operation k. */
  lemma ParentFromMaps(ops: seq<Operation>, byOccurrence: map<Digest, Operation>, depths: map<Digest, nat>, k: nat)
    requires k < |ops| && ops[k].parent.Some? && DepthsMatch(depths, ops, k)
    requires forall i :: 0 <= i < |ops| ==> ops[i].occurrence in byOccurrence && byOccurrence[ops[i].occurrence] == ops[i]
    requires ops[k].parent.value in byOccurrence && ops[k].parent.value in depths
    ensures byOccurrence[ops[k].parent.value].occurrence == ops[k].parent.value
    ensures ParentOf(ops, k) == Some(byOccurrence[ops[k].parent.value])
    ensures depths[ops[k].parent.value] + 1 == Depth(ops, k)
  {
    hide Depth;
    KnownDepthIsParent(depths, ops, k);
  }

  lemma NoParent(ops: seq<Operation>, k: nat)
    requires k < |ops| && ops[k].parent.None?
    ensures ParentOf(ops, k) == None && Depth(ops, k) == 0
  {
  }

  lemma DepthsAreOccurrences(depths: map<Digest, nat>, ops: seq<Operation>, k: nat, o: Digest)
    requires k < |ops| && DepthsMatch(depths, ops, k)
    ensures o in depths <==> Occurs(ops, k, o)
  {
  }

  /** The edge to operation k, made from the maps. */
  lemma EdgeFromMaps(frames: seq<Frame>, indices: map<(bool, Digest), int>, k: nat)
    requires forall action, o :: (action, o) in indices <==> FrameIndex(frames, action, o) >= 0
    requires forall action, o :: (action, o) in indices ==> indices[(action, o)] == FrameIndex(frames, action, o)
    requires var ops, actions := Decisions(frames), Actions(frames);
             k < |ops| && ParentOf(ops, k).Some? && AllLinked(ops, actions, k)
    ensures var ops, actions := Decisions(frames), Actions(frames);
            var (op, parent) := (ops[k], ParentOf(ops, k).value);
            && parent.occurrence in actions
            && (true, parent.occurrence) in indices && (false, op.occurrence) in indices
            && EdgeOf(frames, ops, actions, k)
               == Edge(parent.occurrence, op.occurrence, parent.actor, op.actor, parent.actor != op.actor,
                       actions[parent.occurrence].dispatched, actions[parent.occurrence].outcome,
                       indices[(true, parent.occurrence)] < indices[(false, op.occurrence)])
  {
    hide Decisions, Actions, FrameIndex, ParentIndex;
    var ops := Decisions(frames);
    var p := ParentIndex(ops, k).value;
    assert Linked(ops, Actions(frames), p);
    ActionIsIndexed(frames, ops[p].occurrence);
    DecisionIsIndexed(frames, k);
  }

  /** analyzeSdkActorGraph for the frames of a verified bundle: a report exactly if every decision has an
      action and a parent, if it names one, that was declared before it; otherwise the first fault. The
      parent of a linked operation is linked itself, so its action is never the one that is missing. */
  method AnalyzeSdkActorGraph(frames: seq<Frame>) returns (out: Result<Report, GraphError>)
    requires DistinctOccurrences(Decisions(frames))
    ensures var ops, actions := Decisions(frames), Actions(frames);
            && (AllLinked(ops, actions, |ops|) ==> out == Ok(ReportOf(frames)))
            && (!AllLinked(ops, actions, |ops|) ==> out.Err? && exists k :: 0 <= k < |ops| && FaultAt(ops, actions, k, out.error))
  {
    hide Decisions, Actions, Depth, ParentIndex, ParentOf, RowOf, ActorOrder, FrameIndex, Linked, EdgeOf, Occurs;
    var ops := ListOperations(frames);
    var byOccurrence := MapOperations(ops);
    var actions := MapActions(frames);
    var indices := MapIndices(frames);
    var rows: map<Text, ActorRow>, order: seq<Text>, depths: map<Digest, nat>, edges: seq<Edge> := map[], [], map[], [];
    assert ActorOrder(ops, 0) == [] by { EmptyOrder(ops); }
    for k := 0 to |ops|
      invariant AllLinked(ops, actions, k) && edges == Edges(frames, ops, actions, k)
      invariant order == ActorOrder(ops, k) && forall x :: x in rows <==> x in order
      invariant forall a :: a in rows ==> fresh(rows[a])
      invariant RowsMatch(rows, ops, actions, k)
      invariant DepthsMatch(depths, ops, k)
    {
      hide RowsMatch, DepthsMatch;
      var op := ops[k];
      if op.occurrence !in actions {
        FaultIsUnlinked(ops, actions, k, ActionMissing);
        assert FaultAt(ops, actions, k, ActionMissing);
        return Err(ActionMissing);
      }
      var parent: Option<Operation>, depth := None, 0;
      if op.parent.None? {
        NoParent(ops, k);
      } else {
        if op.parent.value !in byOccurrence {
          FaultIsUnlinked(ops, actions, k, ParentMissing);
          assert FaultAt(ops, actions, k, ParentMissing);
          return Err(ParentMissing);
        }
        parent := Some(byOccurrence[op.parent.value]);
        DepthsAreOccurrences(depths, ops, k, op.parent.value);
        if op.parent.value !in depths {
          FaultIsUnlinked(ops, actions, k, ParentNotPrior);
          assert FaultAt(ops, actions, k, ParentNotPrior);
          return Err(ParentNotPrior);
        }
        ParentFromMaps(ops, byOccurrence, depths, k);
        EdgeFromMaps(frames, indices, k);
        depth := depths[op.parent.value] + 1;
        var ended := actions[parent.value.occurrence];
        edges := edges + [Edge(parent.value.occurrence, op.occurrence, parent.value.actor, op.actor,
                               parent.value.actor != op.actor, ended.dispatched, ended.outcome,
                               indices[(true, parent.value.occurrence)] < indices[(false, op.occurrence)])];
      }
      LinkedNow(ops, actions, k);
      NextEdges(frames, ops, actions, k);
      rows, order := Visit(rows, order, op, actions[op.occurrence].dispatched, parent, depth, ops, actions, k);
      DepthsGrow(depths, ops, k);
      depths := depths[op.occurrence := depth];
    }
    var entries := ListRows(rows, order, ops, actions);
    var roots, cross, deepest := Totals(ops, edges, depths, frames, actions);
    return Ok(Report(|ops|, roots, cross, deepest, SortByKey(entries), edges));
  }

  lemma LinkedNow(ops: seq<Operation>, actions: map<Digest, Ended>, k: nat)
    requires k < |ops| && AllLinked(ops, actions, k) && ops[k].occurrence in actions
    requires ops[k].parent.Some? ==> ParentOf(ops, k).Some?
    ensures Linked(ops, actions, k) && AllLinked(ops, actions, k + 1)
  {
    hide ParentIndex;
  }

  lemma NextEdges(frames: seq<Frame>, ops: seq<Operation>, actions: map<Digest, Ended>, k: nat)
    requires k < |ops| && AllLinked(ops, actions, k + 1)
    ensures ops[k].parent.None? ==> Edges(frames, ops, actions, k + 1) == Edges(frames, ops, actions, k)
    ensures ops[k].parent.Some? ==>
              && ParentIndex(ops, k).Some? && ops[ParentIndex(ops, k).value].occurrence in actions
              && Edges(frames, ops, actions, k + 1) == Edges(frames, ops, actions, k) + [EdgeOf(frames, ops, actions, k)]
  {
    hide ParentIndex, EdgeOf;
    assert Linked(ops, actions, k);
    if ops[k].parent.Some? { assert Linked(ops, actions, ParentIndex(ops, k).value); }
  }

  lemma EmptyOrder(ops: seq<Operation>)
    ensures ActorOrder(ops, 0) == []
  {
  }

  /** The rows in the order their actors first appeared. */
  method ListRows(rows: map<Text, ActorRow>, order: seq<Text>, ghost ops: seq<Operation>, ghost actions: map<Digest, Ended>)
    returns (entries: seq<Keyed<Row>>)
    requires RowsMatch(rows, ops, actions, |ops|) && forall x :: x in rows <==> x in order
    ensures entries == RowsOf(ops, actions, order)
  {
    hide RowOf;
    entries := [];
    assert order[..|order|] == order;
    for i := 0 to |order|
      invariant entries == RowsOf(ops, actions, order[..i])
    {
      assert order[..i + 1][..i] == order[..i];
      entries := entries + [Keyed(order[i], rows[order[i]].View())];
    }
  }

  method Totals(ops: seq<Operation>, edges: seq<Edge>, depths: map<Digest, nat>, ghost frames: seq<Frame>,
                ghost actions: map<Digest, Ended>) returns (roots: nat, cross: nat, deepest: nat)
    requires AllLinked(ops, actions, |ops|) && edges == Edges(frames, ops, actions, |ops|) && DepthsMatch(depths, ops, |ops|)
    ensures roots == RootsUpTo(ops, |ops|) && cross == CrossUpTo(ops, |ops|) && deepest == DepthUpTo(ops, |ops|)
  {
    hide Depth, ParentIndex, Edges;
    roots, cross, deepest := 0, 0, 0;
    for k := 0 to |ops|
      invariant roots == RootsUpTo(ops, k) && deepest == DepthUpTo(ops, k)
    {
      if ops[k].parent.None? { roots := roots + 1; }
      deepest := Max(deepest, depths[ops[k].occurrence]);
    }
    for i := 0 to |edges|
      invariant cross == CrossAmong(edges[..i])
    {
      assert edges[..i + 1][..i] == edges[..i];
      if edges[i].crossActor { cross := cross + 1; }
    }
    assert edges[..|edges|] == edges;
    CrossEdges(frames, ops, actions, |ops|);
  }

  function CrossAmong(edges: seq<Edge>): nat {
    if edges == [] then 0 else CrossAmong(edges[..|edges| - 1]) + One(edges[|edges| - 1].crossActor)
  }

  lemma {:induction false} CrossEdges(frames: seq<Frame>, ops: seq<Operation>, actions: map<Digest, Ended>, n: nat)
    requires n <= |ops| && AllLinked(ops, actions, n)
    ensures CrossAmong(Edges(frames, ops, actions, n)) == CrossUpTo(ops, n)
    ensures RootsUpTo(ops, n) + |Edges(frames, ops, actions, n)| == n
    decreases n
  {
    hide ParentIndex, FrameIndex;
    if n > 0 {
      CrossEdges(frames, ops, actions, n - 1);
      assert Linked(ops, actions, n - 1);
      var edges := Edges(frames, ops, actions, n);
      if ops[n - 1].parent.Some? {
        assert edges[..|edges| - 1] == Edges(frames, ops, actions, n - 1);
      }
    }
  }
}
