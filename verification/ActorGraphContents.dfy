/** What the actor graph says of its frames, row by row and edge by edge (src/actor-graph.ts). */
module ActorGraphContents {
  import opened Common
  import opened TextUnits
  import opened CanonicalOrder
  import opened ActorGraph
  import opened ActorGraphTheorems

  // ----- the frames -----

  predicate IsFrameOf(f: Frame, action: bool, o: Digest) {
    if action then f.ActionFrame? && f.occurrence == o else f.DecisionFrame? && f.operation.occurrence == o
  }

  /** The index of a kind and occurrence is that of its last frame. */
  lemma {:induction false} FrameIndexIsLast(frames: seq<Frame>, action: bool, o: Digest)
    ensures FrameIndex(frames, action, o) == -1 ==> forall i :: 0 <= i < |frames| ==> !IsFrameOf(frames[i], action, o)
    ensures FrameIndex(frames, action, o) != -1 ==>
              var i := FrameIndex(frames, action, o);
              && 0 <= i < |frames| && IsFrameOf(frames[i], action, o)
              && forall j :: i < j < |frames| ==> !IsFrameOf(frames[j], action, o)
  {
    if frames != [] {
      FrameIndexIsLast(frames[..|frames| - 1], action, o);
      assert forall i :: 0 <= i < |frames| - 1 ==> frames[i] == frames[..|frames| - 1][i];
    }
  }

  /** The end of an occurrence is what its last action frame says. */
  lemma {:induction false} ActionsAreLast(frames: seq<Frame>, o: Digest)
    ensures o in Actions(frames) <==> FrameIndex(frames, true, o) >= 0
    ensures o in Actions(frames) ==>
              FrameIndex(frames, true, o) < |frames| && frames[FrameIndex(frames, true, o)] == ActionFrame(o, Actions(frames)[o])
  {
    if frames != [] { ActionsAreLast(frames[..|frames| - 1], o); }
  }

  /** The positions of the decision frames. */
  function DecisionsAt(frames: seq<Frame>): (positions: seq<nat>)
    ensures forall k :: 0 <= k < |positions| ==> positions[k] < |frames|
    ensures forall j, k :: 0 <= j < k < |positions| ==> positions[j] < positions[k]
  {
    if frames == [] then []
    else
      DecisionsAt(frames[..|frames| - 1]) + (if frames[|frames| - 1].DecisionFrame? then [|frames| - 1] else [])
  }

  lemma {:induction false} EveryDecision(frames: seq<Frame>, i: nat)
    requires i < |frames| && frames[i].DecisionFrame?
    ensures i in DecisionsAt(frames)
  {
    if i < |frames| - 1 { EveryDecision(frames[..|frames| - 1], i); }
  }

  /** The operations are those of the decision frames, each once and in order. */
  lemma {:induction false} DecisionsInOrder(frames: seq<Frame>)
    ensures var at := DecisionsAt(frames);
            |Decisions(frames)| == |at| && forall k :: 0 <= k < |at| ==> frames[at[k]] == DecisionFrame(Decisions(frames)[k])
  {
    if frames != [] {
      var init := frames[..|frames| - 1];
      DecisionsInOrder(init);
      assert forall i :: 0 <= i < |init| ==> init[i] == frames[i];
    }
  }

  // ----- rows -----

  function PrincipalsOf(ops: seq<Operation>, n: nat, a: Text): set<Text>
    requires n <= |ops|
  {
    set k | 0 <= k < n && ops[k].actor == a :: ops[k].principal
  }

  predicate Dispatched(ops: seq<Operation>, actions: map<Digest, Ended>, k: nat, a: Text)
    requires k < |ops|
  {
    ops[k].actor == a && ops[k].occurrence in actions && actions[ops[k].occurrence].dispatched
  }

  function DispatchedOf(ops: seq<Operation>, actions: map<Digest, Ended>, n: nat, a: Text): set<nat>
    requires n <= |ops|
  {
    set k: nat | k < n && Dispatched(ops, actions, k, a)
  }

  lemma DispatchedGrows(ops: seq<Operation>, actions: map<Digest, Ended>, n: nat, a: Text)
    requires n < |ops|
    ensures |DispatchedOf(ops, actions, n + 1, a)| == |DispatchedOf(ops, actions, n, a)| + One(Dispatched(ops, actions, n, a))
  {
    hide Dispatched;
    assert DispatchedOf(ops, actions, n + 1, a)
           == DispatchedOf(ops, actions, n, a) + (if Dispatched(ops, actions, n, a) then {n} else {});
  }

  lemma PrincipalsGrow(ops: seq<Operation>, n: nat, a: Text)
    requires n < |ops|
    ensures PrincipalsOf(ops, n + 1, a) == PrincipalsOf(ops, n, a) + (if ops[n].actor == a then {ops[n].principal} else {})
  {
  }

  lemma RowGains(ops: seq<Operation>, actions: map<Digest, Ended>, k: nat, a: Text)
    requires k < |ops|
    ensures var (r, t) := (RowOf(ops, actions, k, a), RowOf(ops, actions, k + 1, a));
            && t.principals == r.principals + (if ops[k].actor == a then {ops[k].principal} else {})
            && t.dispatched == r.dispatched + One(Dispatched(ops, actions, k, a))
  {
    hide Depth, ParentIndex;
    NextRow(ops, actions, k, a);
    hide RowOf;
  }

  lemma {:induction false} RowNames(ops: seq<Operation>, actions: map<Digest, Ended>, n: nat, a: Text)
    requires n <= |ops|
    ensures RowOf(ops, actions, n, a).principals == PrincipalsOf(ops, n, a)
    ensures RowOf(ops, actions, n, a).dispatched == |DispatchedOf(ops, actions, n, a)|
    decreases n
  {
    if n == 0 {
      assert DispatchedOf(ops, actions, 0, a) == {} && PrincipalsOf(ops, 0, a) == {};
    } else {
      RowNames(ops, actions, n - 1, a);
      RowGains(ops, actions, n - 1, a);
      DispatchedGrows(ops, actions, n - 1, a);
      PrincipalsGrow(ops, n - 1, a);
      hide RowOf, DispatchedOf, PrincipalsOf;
    }
  }

  /** Operation k names a parent of another actor. */
  predicate Crosses(ops: seq<Operation>, p: nat, k: nat) {
    IsParent(ops, p, k) && ops[p].actor != ops[k].actor
  }

  /** The row of an actor: who acted under its name, how often, and how often with what. */
  ghost predicate RowHolds(ops: seq<Operation>, actions: map<Digest, Ended>, x: Keyed<Row>) {
    var (a, n) := (x.key, |ops|);
    && x.value.principals == PrincipalsOf(ops, n, a)
    && x.value.dispatched == |DispatchedOf(ops, actions, n, a)|
    && x.value.operations == |OwnOperations(ops, n, a)| && x.value.roots == |OwnRoots(ops, n, a)|
    && x.value.inbound == |EdgesInto(ops, n, a)| && x.value.outbound == |EdgesOutOf(ops, n, a)|
  }

  /** The edges counted as entering and leaving are those between actors. */
  lemma EdgesCross(ops: seq<Operation>, k: nat, a: Text)
    requires DistinctOccurrences(ops) && k < |ops|
    ensures k in EdgesInto(ops, |ops|, a) <==> exists p: nat :: Crosses(ops, p, k) && ops[k].actor == a
    ensures k in EdgesOutOf(ops, |ops|, a) <==> exists p: nat :: Crosses(ops, p, k) && ops[p].actor == a
  {
    var parent := ParentIndex(ops, k);
    if parent.Some? {
      forall p: nat | IsParent(ops, p, k)
        ensures p == parent.value
      {
        assert IsParent(ops, parent.value, k);
      }
      assert CrossActor(ops, k) ==> Crosses(ops, parent.value, k);
    }
  }

  lemma {:induction false} RowAt(ops: seq<Operation>, actions: map<Digest, Ended>, order: seq<Text>)
    ensures |RowsOf(ops, actions, order)| == |order|
    ensures forall i :: 0 <= i < |order| ==> RowsOf(ops, actions, order)[i] == Keyed(order[i], RowOf(ops, actions, |ops|, order[i]))
  {
    hide RowOf;
    if order != [] { RowAt(ops, actions, order[..|order| - 1]); }
  }

  lemma {:induction false} OrderIsActors(ops: seq<Operation>, n: nat, a: Text)
    requires n <= |ops| && a in ActorOrder(ops, n)
    ensures exists i :: 0 <= i < n && ops[i].actor == a
    decreases n
  {
    if a in ActorOrder(ops, n - 1) { OrderIsActors(ops, n - 1, a); }
  }

  /** One row for each actor that declared an operation, in strict order of the actors. */
  lemma ActorsHold(frames: seq<Frame>)
    requires AllLinked(Decisions(frames), Actions(frames), |Decisions(frames)|)
    ensures var (ops, rows) := (Decisions(frames), ReportOf(frames).actors);
            && (forall i :: 0 <= i < |rows| ==> RowHolds(ops, Actions(frames), rows[i]) && rows[i].value.operations > 0)
            && (forall i, j :: 0 <= i < j < |rows| ==> Before(rows[i].key, rows[j].key))
            && (forall k :: 0 <= k < |ops| ==> exists i :: 0 <= i < |rows| && rows[i].key == ops[k].actor)
  {
    ReportActors(frames);
    SortedRows(Decisions(frames), Actions(frames));
    hide Decisions, Actions, ReportOf, RowsOf, SortByKey, RowHolds, AllLinked, ActorOrder;
  }

  lemma ReportActors(frames: seq<Frame>)
    requires AllLinked(Decisions(frames), Actions(frames), |Decisions(frames)|)
    ensures var ops := Decisions(frames);
            ReportOf(frames).actors == SortByKey(RowsOf(ops, Actions(frames), ActorOrder(ops, |ops|)))
  {
    hide Decisions, Actions, Edges, RowsOf, SortByKey, ActorOrder;
  }

  lemma SortedRows(ops: seq<Operation>, actions: map<Digest, Ended>)
    ensures var rows := SortByKey(RowsOf(ops, actions, ActorOrder(ops, |ops|)));
            && (forall i :: 0 <= i < |rows| ==> RowHolds(ops, actions, rows[i]) && rows[i].value.operations > 0)
            && (forall i, j :: 0 <= i < j < |rows| ==> Before(rows[i].key, rows[j].key))
            && (forall k :: 0 <= k < |ops| ==> exists i :: 0 <= i < |rows| && rows[i].key == ops[k].actor)
  {
    var order := ActorOrder(ops, |ops|);
    var given := RowsOf(ops, actions, order);
    OrderHasNoRepeats(ops, |ops|);
    RowAt(ops, actions, order);
    hide ActorOrder, RowsOf, RowOf, RowHolds;
    SortListsAll(given);
    hide SortByKey, Distinct;
    var rows := SortByKey(given);
    forall i | 0 <= i < |rows|
      ensures RowHolds(ops, actions, rows[i]) && rows[i].value.operations > 0
    {
      assert rows[i] in rows;
      var j :| 0 <= j < |given| && given[j] == rows[i];
      OneRow(ops, actions, order[j]);
    }
    forall k | 0 <= k < |ops|
      ensures exists i :: 0 <= i < |rows| && rows[i].key == ops[k].actor
    {
      OrderListsActors(ops, |ops|, k);
      var j :| 0 <= j < |order| && order[j] == ops[k].actor;
      assert given[j] in given;
    }
  }

  lemma SortListsAll<T>(s: seq<Keyed<T>>)
    ensures forall x :: x in SortByKey(s) <==> x in s
    ensures Distinct(s) ==> Sorted(SortByKey(s))
  {
    SortKeeps(s);
    forall x
      ensures x in SortByKey(s) <==> x in s
    {
      assert x in SortByKey(s) <==> x in multiset(SortByKey(s));
      assert x in s <==> x in multiset(s);
    }
  }

  lemma OneRow(ops: seq<Operation>, actions: map<Digest, Ended>, a: Text)
    requires a in ActorOrder(ops, |ops|)
    ensures var x := Keyed(a, RowOf(ops, actions, |ops|, a)); RowHolds(ops, actions, x) && x.value.operations > 0
  {
    hide RowOf, ActorOrder, PrincipalsOf, DispatchedOf, OwnRoots, EdgesInto, EdgesOutOf;
    RowNames(ops, actions, |ops|, a);
    RowCounts(ops, actions, |ops|, a);
    OrderIsActors(ops, |ops|, a);
    var i :| 0 <= i < |ops| && ops[i].actor == a;
    assert i in OwnOperations(ops, |ops|, a);
  }

  // ----- edges -----

  /** The edge from operation p to operation k. */
  predicate EdgeHolds(frames: seq<Frame>, p: nat, k: nat, e: Edge) {
    var (ops, actions) := (Decisions(frames), Actions(frames));
    && IsParent(ops, p, k) && ops[p].occurrence in actions
    && e.parent == ops[p].occurrence && e.child == ops[k].occurrence
    && e.source == ops[p].actor && e.target == ops[k].actor && (e.crossActor <==> ops[p].actor != ops[k].actor)
    && (e.parentDispatched <==> actions[ops[p].occurrence].dispatched)
    && e.parentOutcome == actions[ops[p].occurrence].outcome
    && (e.parentEndedFirst <==>
          FrameIndex(frames, true, ops[p].occurrence) < FrameIndex(frames, false, ops[k].occurrence))
  }

  /** The operations that name a parent, in order. */
  function Children(ops: seq<Operation>, n: nat): (children: seq<nat>)
    requires n <= |ops|
    ensures forall j :: 0 <= j < |children| ==> children[j] < n && ops[children[j]].parent.Some?
    ensures forall k: nat :: k < n && ops[k].parent.Some? ==> k in children
    ensures forall i, j :: 0 <= i < j < |children| ==> children[i] < children[j]
  {
    if n == 0 then []
    else if ops[n - 1].parent.Some? then Children(ops, n - 1) + [n - 1]
    else Children(ops, n - 1)
  }

  lemma OneEdge(frames: seq<Frame>, k: nat) returns (p: nat)
    requires var ops := Decisions(frames);
             AllLinked(ops, Actions(frames), |ops|) && k < |ops| && ops[k].parent.Some?
    ensures ParentIndex(Decisions(frames), k) == Some(p) && Decisions(frames)[p].occurrence in Actions(frames)
    ensures EdgeHolds(frames, p, k, EdgeOf(frames, Decisions(frames), Actions(frames), k))
  {
    hide Decisions, Actions, FrameIndex, ParentIndex;
    var ops := Decisions(frames);
    assert Linked(ops, Actions(frames), k);
    p := ParentIndex(ops, k).value;
    assert Linked(ops, Actions(frames), p);
  }

  predicate EdgeTo(frames: seq<Frame>, k: nat, e: Edge) {
    exists p: nat :: p < k && EdgeHolds(frames, p, k, e)
  }

  /** One edge for each operation that names a parent, in the order of the operations. */
  predicate EdgesHold(frames: seq<Frame>, edges: seq<Edge>, n: nat)
    requires n <= |Decisions(frames)|
  {
    var children := Children(Decisions(frames), n);
    && |edges| == |children|
    && forall j :: 0 <= j < |edges| ==> EdgeTo(frames, children[j], edges[j])
  }

  lemma EdgesStep(frames: seq<Frame>, n: nat)
    requires 0 < n <= |Decisions(frames)| && AllLinked(Decisions(frames), Actions(frames), |Decisions(frames)|)
    ensures var (ops, actions) := (Decisions(frames), Actions(frames));
            var init := Edges(frames, ops, actions, n - 1);
            if ops[n - 1].parent.Some? then
              && ParentIndex(ops, n - 1).Some? && ops[ParentIndex(ops, n - 1).value].occurrence in actions
              && Edges(frames, ops, actions, n) == init + [EdgeOf(frames, ops, actions, n - 1)]
            else Edges(frames, ops, actions, n) == init
  {
    hide Decisions, Actions, EdgeOf, ParentIndex;
    var ops := Decisions(frames);
    assert Linked(ops, Actions(frames), n - 1);
    if ops[n - 1].parent.Some? { assert Linked(ops, Actions(frames), ParentIndex(ops, n - 1).value); }
  }

  lemma {:induction false} EdgesUpTo(frames: seq<Frame>, n: nat)
    requires n <= |Decisions(frames)| && AllLinked(Decisions(frames), Actions(frames), |Decisions(frames)|)
    ensures EdgesHold(frames, Edges(frames, Decisions(frames), Actions(frames), n), n)
    decreases n
  {
    hide Decisions, Actions, EdgeHolds, EdgeOf, Linked, ParentIndex;
    if n > 0 {
      var ops := Decisions(frames);
      EdgesUpTo(frames, n - 1);
      EdgesStep(frames, n);
      hide Edges, EdgesHold;
      if ops[n - 1].parent.Some? {
        var p := OneEdge(frames, n - 1);
        ParentBefore(ops, n - 1, p);
        EdgeMore(frames, Edges(frames, ops, Actions(frames), n - 1), n, p, EdgeOf(frames, ops, Actions(frames), n - 1));
      } else {
        EdgesAsBefore(frames, Edges(frames, ops, Actions(frames), n - 1), n);
      }
    }
  }

  lemma EdgeMore(frames: seq<Frame>, edges: seq<Edge>, n: nat, p: nat, e: Edge)
    requires 0 < n <= |Decisions(frames)| && Decisions(frames)[n - 1].parent.Some?
    requires EdgesHold(frames, edges, n - 1) && p < n - 1 && EdgeHolds(frames, p, n - 1, e)
    ensures EdgesHold(frames, edges + [e], n)
  {
    assert EdgeTo(frames, n - 1, e);
    hide Decisions, EdgeTo;
    var before := Children(Decisions(frames), n - 1);
    assert Children(Decisions(frames), n) == before + [n - 1];
  }

  lemma EdgesAsBefore(frames: seq<Frame>, edges: seq<Edge>, n: nat)
    requires 0 < n <= |Decisions(frames)| && Decisions(frames)[n - 1].parent.None?
    requires EdgesHold(frames, edges, n - 1)
    ensures EdgesHold(frames, edges, n)
  {
    hide Decisions, EdgeTo;
    assert Children(Decisions(frames), n) == Children(Decisions(frames), n - 1);
  }

  lemma ParentBefore(ops: seq<Operation>, k: nat, p: nat)
    requires k < |ops| && ParentIndex(ops, k) == Some(p)
    ensures p < k
  {
  }

  lemma ReportEdges(frames: seq<Frame>)
    requires AllLinked(Decisions(frames), Actions(frames), |Decisions(frames)|)
    ensures EdgesHold(frames, ReportOf(frames).edges, |Decisions(frames)|)
  {
    EdgesUpTo(frames, |Decisions(frames)|);
  }
}
