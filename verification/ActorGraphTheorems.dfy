/** What the actor graph conserves: every operation, root and cross-actor edge is counted once, and depth is
    the length of the chain of parents (src/actor-graph.ts). */
module ActorGraphTheorems {
  import opened Common
  import opened TextUnits
  import opened CanonicalOrder
  import opened ActorGraph

  // ----- depth -----

  /** A chain of parents, from an operation back towards a root. */
  predicate ParentChain(ops: seq<Operation>, chain: seq<nat>) {
    && chain != []
    && (forall i :: 0 <= i < |chain| ==> chain[i] < |ops|)
    && forall i :: 0 < i < |chain| ==> IsParent(ops, chain[i], chain[i - 1])
  }

  /** From every operation of an analysed bundle the parents lead to a root in exactly `depth` steps. */
  lemma {:induction false} DepthIsChainLength(ops: seq<Operation>, actions: map<Digest, Ended>, k: nat) returns (chain: seq<nat>)
    requires AllLinked(ops, actions, |ops|) && k < |ops|
    ensures ParentChain(ops, chain) && chain[0] == k && ops[chain[|chain| - 1]].parent.None?
    ensures |chain| == Depth(ops, k) + 1
    decreases k
  {
    assert Linked(ops, actions, k);
    chain := [k];
    if ops[k].parent.Some? {
      var p := ParentIndex(ops, k).value;
      var rest := DepthIsChainLength(ops, actions, p);
      chain := [k] + rest;
    }
  }

  /** And there is no other chain to a root: parentage is a forest. */
  lemma {:induction false} ChainsAgree(ops: seq<Operation>, one: seq<nat>, other: seq<nat>)
    requires DistinctOccurrences(ops) && ParentChain(ops, one) && ParentChain(ops, other)
    requires one[0] == other[0] && ops[one[|one| - 1]].parent.None? && ops[other[|other| - 1]].parent.None?
    ensures one == other
    decreases |one|
  {
    if |one| > 1 && |other| > 1 {
      assert IsParent(ops, one[1], one[0]) && IsParent(ops, other[1], other[0]);
      assert ParentChain(ops, one[1..]) by { TailIsChain(ops, one); }
      assert ParentChain(ops, other[1..]) by { TailIsChain(ops, other); }
      ChainsAgree(ops, one[1..], other[1..]);
      assert one == [one[0]] + one[1..] && other == [other[0]] + other[1..];
    } else {
      assert |one| > 1 ==> IsParent(ops, one[1], one[0]);
      assert |other| > 1 ==> IsParent(ops, other[1], other[0]);
    }
  }

  lemma TailIsChain(ops: seq<Operation>, chain: seq<nat>)
    requires ParentChain(ops, chain) && |chain| > 1
    ensures ParentChain(ops, chain[1..])
  {
    var tail := chain[1..];
    forall i | 0 < i < |tail|
      ensures IsParent(ops, tail[i], tail[i - 1])
    {
      assert tail[i] == chain[i + 1] && tail[i - 1] == chain[i];
      assert IsParent(ops, chain[i + 1], chain[i + 1 - 1]);
    }
  }

  // ----- sums over the rows -----

  datatype Sums = Sums(operations: nat, roots: nat, inbound: nat, outbound: nat, deepest: nat)

  function Add(s: Sums, row: Row): Sums {
    Sums(s.operations + row.operations, s.roots + row.roots, s.inbound + row.inbound, s.outbound + row.outbound,
         Max(s.deepest, row.maximumDepth))
  }

  function SumRows(rows: seq<Keyed<Row>>): Sums {
    if rows == [] then Sums(0, 0, 0, 0, 0) else Add(SumRows(rows[1..]), rows[0].value)
  }

  lemma {:induction false} InsertKeepsSum(x: Keyed<Row>, rows: seq<Keyed<Row>>)
    ensures SumRows(Insert(x, rows)) == Add(SumRows(rows), x.value)
  {
    if rows != [] && Before(rows[0].key, x.key) {
      InsertKeepsSum(x, rows[1..]);
      assert Insert(x, rows)[1..] == Insert(x, rows[1..]);
    } else {
      assert ([x] + rows)[1..] == rows;
    }
  }

  lemma {:induction false} SortKeepsSum(rows: seq<Keyed<Row>>)
    ensures SumRows(SortByKey(rows)) == SumRows(rows)
  {
    if rows != [] {
      SortKeepsSum(rows[1..]);
      InsertKeepsSum(rows[0], SortByKey(rows[1..]));
    }
  }

  /** The rows of the given actors after n operations, summed. */
  function SumOver(ops: seq<Operation>, actions: map<Digest, Ended>, n: nat, actors: seq<Text>): Sums
    requires n <= |ops|
  {
    if actors == [] then Sums(0, 0, 0, 0, 0)
    else Add(SumOver(ops, actions, n, actors[..|actors| - 1]), RowOf(ops, actions, n, actors[|actors| - 1]))
  }

  lemma {:induction false} SumOfRows(ops: seq<Operation>, actions: map<Digest, Ended>, actors: seq<Text>)
    ensures SumRows(RowsOf(ops, actions, actors)) == SumOver(ops, actions, |ops|, actors)
  {
    hide RowOf;
    if actors == [] {
    } else {
      var init, last := actors[..|actors| - 1], Keyed(actors[|actors| - 1], RowOf(ops, actions, |ops|, actors[|actors| - 1]));
      SumOfRows(ops, actions, init);
      AppendKeepsSum(RowsOf(ops, actions, init), last);
    }
  }

  lemma {:induction false} AppendKeepsSum(rows: seq<Keyed<Row>>, x: Keyed<Row>)
    ensures SumRows(rows + [x]) == Add(SumRows(rows), x.value)
  {
    if rows == [] {
      assert rows + [x] == [x] && [x][1..] == [];
    } else {
      AppendKeepsSum(rows[1..], x);
      assert (rows + [x])[1..] == rows[1..] + [x];
    }
  }

  predicate NoRepeats(actors: seq<Text>) { forall i, j :: 0 <= i < j < |actors| ==> actors[i] != actors[j] }

  /** What operation k adds to the sums over a list that does or does not name its actor and its parent's. */
  lemma {:induction false} SumStep(ops: seq<Operation>, actions: map<Digest, Ended>, k: nat, actors: seq<Text>)
    requires k < |ops| && NoRepeats(actors)
    ensures var (s, t) := (SumOver(ops, actions, k, actors), SumOver(ops, actions, k + 1, actors));
            var mine, cross := ops[k].actor in actors, CrossActor(ops, k);
            && t.operations == s.operations + One(mine)
            && t.roots == s.roots + One(mine && ops[k].parent.None?)
            && t.inbound == s.inbound + One(mine && cross)
            && t.outbound == s.outbound + One(cross && ops[ParentIndex(ops, k).value].actor in actors)
            && t.deepest == (if mine then Max(s.deepest, Depth(ops, k)) else s.deepest)
  {
    hide Depth, ParentIndex;
    if actors != [] {
      var init, a := actors[..|actors| - 1], actors[|actors| - 1];
      assert forall x :: x in actors <==> x in init || x == a;
      assert a !in init;
      SumStep(ops, actions, k, init);
      RowAdds(ops, actions, k, a);
      hide RowOf, RowStep, CrossActor;
    }
  }

  lemma RowAdds(ops: seq<Operation>, actions: map<Digest, Ended>, k: nat, a: Text)
    requires k < |ops|
    ensures var (r, t) := (RowOf(ops, actions, k, a), RowOf(ops, actions, k + 1, a));
            var mine, cross := ops[k].actor == a, CrossActor(ops, k);
            && t.operations == r.operations + One(mine)
            && t.roots == r.roots + One(mine && ops[k].parent.None?)
            && t.inbound == r.inbound + One(mine && cross)
            && t.outbound == r.outbound + One(cross && ops[ParentIndex(ops, k).value].actor == a)
            && t.maximumDepth == (if mine then Max(r.maximumDepth, Depth(ops, k)) else r.maximumDepth)
  {
    hide Depth, ParentIndex;
    NextRow(ops, actions, k, a);
    hide RowOf;
  }

  lemma {:induction false} SumsAddUp(ops: seq<Operation>, actions: map<Digest, Ended>, n: nat, actors: seq<Text>)
    requires n <= |ops| && NoRepeats(actors) && forall i :: 0 <= i < |ops| ==> ops[i].actor in actors
    ensures SumOver(ops, actions, n, actors) ==
              Sums(n, RootsUpTo(ops, n), CrossUpTo(ops, n), CrossUpTo(ops, n), DepthUpTo(ops, n))
    decreases n
  {
    hide Depth, ParentIndex;
    if n == 0 {
      NothingSums(ops, actions, actors);
    } else {
      SumsAddUp(ops, actions, n - 1, actors);
      SumStep(ops, actions, n - 1, actors);
      hide SumOver;
    }
  }

  lemma {:induction false} NothingSums(ops: seq<Operation>, actions: map<Digest, Ended>, actors: seq<Text>)
    ensures SumOver(ops, actions, 0, actors) == Sums(0, 0, 0, 0, 0)
  {
    if actors != [] { NothingSums(ops, actions, actors[..|actors| - 1]); }
  }

  lemma {:induction false} OrderHasNoRepeats(ops: seq<Operation>, n: nat)
    requires n <= |ops|
    ensures NoRepeats(ActorOrder(ops, n))
    decreases n
  {
    if n > 0 { OrderHasNoRepeats(ops, n - 1); }
  }

  /** Conservation: operations and roots of the actors add up to the totals, roots and edges to the
      operations, inbound and outbound edges to the cross-actor edges, and the deepest actor is as deep as
      the graph. */
  lemma GraphConserves(frames: seq<Frame>)
    requires AllLinked(Decisions(frames), Actions(frames), |Decisions(frames)|)
    ensures var r := ReportOf(frames);
            && SumRows(r.actors) == Sums(r.operations, r.roots, r.crossEdges, r.crossEdges, r.maximumDepth)
            && r.roots + |r.edges| == r.operations
            && CrossAmong(r.edges) == r.crossEdges
  {
    var ops, actions := Decisions(frames), Actions(frames);
    var order := ActorOrder(ops, |ops|);
    OrderHasNoRepeats(ops, |ops|);
    forall i | 0 <= i < |ops|
      ensures ops[i].actor in order
    {
      OrderListsActors(ops, |ops|, i);
    }
    hide Decisions, Actions, ActorOrder, Edges, SumRows, SumOver, RowsOf, RowOf;
    SumsAddUp(ops, actions, |ops|, order);
    SumOfRows(ops, actions, order);
    SortKeepsSum(RowsOf(ops, actions, order));
    CrossEdges(frames, ops, actions, |ops|);
  }

  // ----- what each count of a row counts -----

  predicate Rooted(ops: seq<Operation>, k: nat, a: Text)
    requires k < |ops|
  {
    ops[k].actor == a && ops[k].parent.None?
  }

  predicate Enters(ops: seq<Operation>, k: nat, a: Text)
    requires k < |ops|
  {
    ops[k].actor == a && CrossActor(ops, k)
  }

  predicate Leaves(ops: seq<Operation>, k: nat, a: Text)
    requires k < |ops|
  {
    CrossActor(ops, k) && ops[ParentIndex(ops, k).value].actor == a
  }

  function OwnOperations(ops: seq<Operation>, n: nat, a: Text): set<nat>
    requires n <= |ops|
  {
    set k: nat | k < n && ops[k].actor == a
  }

  function OwnRoots(ops: seq<Operation>, n: nat, a: Text): set<nat>
    requires n <= |ops|
  {
    set k: nat | k < n && Rooted(ops, k, a)
  }

  function EdgesInto(ops: seq<Operation>, n: nat, a: Text): set<nat>
    requires n <= |ops|
  {
    set k: nat | k < n && Enters(ops, k, a)
  }

  function EdgesOutOf(ops: seq<Operation>, n: nat, a: Text): set<nat>
    requires n <= |ops|
  {
    set k: nat | k < n && Leaves(ops, k, a)
  }

  lemma OwnGrows(ops: seq<Operation>, n: nat, a: Text)
    requires n < |ops|
    ensures |OwnOperations(ops, n + 1, a)| == |OwnOperations(ops, n, a)| + One(ops[n].actor == a)
  {
    assert OwnOperations(ops, n + 1, a) == OwnOperations(ops, n, a) + (if ops[n].actor == a then {n} else {});
  }

  lemma RootsGrow(ops: seq<Operation>, n: nat, a: Text)
    requires n < |ops|
    ensures |OwnRoots(ops, n + 1, a)| == |OwnRoots(ops, n, a)| + One(Rooted(ops, n, a))
  {
    hide Rooted;
    assert OwnRoots(ops, n + 1, a) == OwnRoots(ops, n, a) + (if Rooted(ops, n, a) then {n} else {});
  }

  lemma InboundGrows(ops: seq<Operation>, n: nat, a: Text)
    requires n < |ops|
    ensures |EdgesInto(ops, n + 1, a)| == |EdgesInto(ops, n, a)| + One(Enters(ops, n, a))
  {
    hide Enters;
    assert EdgesInto(ops, n + 1, a) == EdgesInto(ops, n, a) + (if Enters(ops, n, a) then {n} else {});
  }

  lemma OutboundGrows(ops: seq<Operation>, n: nat, a: Text)
    requires n < |ops|
    ensures |EdgesOutOf(ops, n + 1, a)| == |EdgesOutOf(ops, n, a)| + One(Leaves(ops, n, a))
  {
    hide Leaves;
    assert EdgesOutOf(ops, n + 1, a) == EdgesOutOf(ops, n, a) + (if Leaves(ops, n, a) then {n} else {});
  }

  /** An actor's row counts exactly the operations that name it, those of them that are roots, the
      cross-actor edges that end in one of them, and those that start in one. */
  lemma {:induction false} RowCounts(ops: seq<Operation>, actions: map<Digest, Ended>, n: nat, a: Text)
    requires n <= |ops|
    ensures var row := RowOf(ops, actions, n, a);
            && row.operations == |OwnOperations(ops, n, a)|
            && row.roots == |OwnRoots(ops, n, a)|
            && row.inbound == |EdgesInto(ops, n, a)|
            && row.outbound == |EdgesOutOf(ops, n, a)|
    decreases n
  {
    hide Depth, ParentIndex, RowStep, CrossActor;
    if n > 0 {
      RowCounts(ops, actions, n - 1, a);
      RowAdds(ops, actions, n - 1, a);
      OwnGrows(ops, n - 1, a);
      RootsGrow(ops, n - 1, a);
      InboundGrows(ops, n - 1, a);
      OutboundGrows(ops, n - 1, a);
      hide RowOf, OwnOperations, OwnRoots, EdgesInto, EdgesOutOf;
    } else {
      assert OwnOperations(ops, 0, a) == {} && OwnRoots(ops, 0, a) == {};
      assert EdgesInto(ops, 0, a) == {} && EdgesOutOf(ops, 0, a) == {};
    }
  }

  /** Its depth is reached by one of its operations, if it has any, and exceeded by none. */
  lemma {:induction false} RowDepthIsMaximum(ops: seq<Operation>, actions: map<Digest, Ended>, n: nat, a: Text)
    requires n <= |ops|
    ensures forall k: nat :: k < n && ops[k].actor == a ==> Depth(ops, k) <= RowOf(ops, actions, n, a).maximumDepth
    ensures RowOf(ops, actions, n, a).maximumDepth == 0
            || exists k: nat :: k < n && ops[k].actor == a && Depth(ops, k) == RowOf(ops, actions, n, a).maximumDepth
    decreases n
  {
    hide Depth, ParentIndex, RowStep;
    if n > 0 {
      RowDepthIsMaximum(ops, actions, n - 1, a);
      RowAdds(ops, actions, n - 1, a);
      hide RowOf;
      assert ops[n - 1].actor == a ==> n - 1 < n && Depth(ops, n - 1) <= RowOf(ops, actions, n, a).maximumDepth;
    }
  }
}
