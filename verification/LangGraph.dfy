// build_graph of adapters/python/acp_langgraph: the START..END graph over a manifest's actions.

module LangGraph {
  import opened Order
  import opened Graph
  import opened Manifest
  import opened Schedule
  import opened Ordering

  datatype Node = Start | End | Act(id: string)

  type Edges = set<(Node, Node)>

  // The mutable graph the adapter fills.
  class StateGraph {
    var nodes: seq<Node>
    var edges: Edges

    constructor ()
      ensures nodes == [] && edges == {}
    {
      nodes, edges := [], {};
    }

    method AddNode(n: Node)
      modifies this
      ensures nodes == old(nodes) + [n] && edges == old(edges)
    {
      nodes := nodes + [n];
    }

    method AddEdge(u: Node, v: Node)
      modifies this
      ensures edges == old(edges) + {(u, v)} && nodes == old(nodes)
    {
      edges := edges + {(u, v)};
    }
  }

  // ---- The edges of the finished graph ----------------------------------------------

  ghost function DependencyEdges(actions: seq<Action>, ids: set<string>): Edges
  {
    set a, d | a in actions && d in a.dependsOn && d in ids :: (Act(d), Act(a.id))
  }

  ghost function StartEdges(byId: map<string, Action>): Edges
  {
    set id | id in byId && byId[id].dependsOn == [] :: (Start, Act(id))
  }

  ghost predicate HasDependents(actions: seq<Action>, id: string)
  {
    exists a :: a in actions && id in a.dependsOn
  }

  ghost function EndEdges(actions: seq<Action>, ids: set<string>): Edges
  {
    set id | id in ids && !HasDependents(actions, id) :: (Act(id), End)
  }

  ghost function AllEdges(actions: seq<Action>): Edges
  {
    var byId := ById(actions);
    DependencyEdges(actions, byId.Keys) + StartEdges(byId) + EndEdges(actions, byId.Keys)
  }

  ghost predicate NodesAre(nodes: seq<Node>, actions: seq<Action>)
  {
    |nodes| == |actions| && forall i :: 0 <= i < |nodes| ==> nodes[i] == Act(actions[i].id)
  }

  // ---- Building ---------------------------------------------------------------------

  method BuildGraph(actions: seq<Action>) returns (r: Outcome, graph: StateGraph)
    ensures fresh(graph)
    ensures r == TopologicalResult(actions)
    ensures r.Scheduled? ==> |graph.nodes| == |r.order| &&
                             forall i :: 0 <= i < |r.order| ==> graph.nodes[i] == Act(r.order[i].id)
    ensures r.Scheduled? ==> graph.edges == AllEdges(actions)
  {
    graph := new StateGraph();
    r := TopologicalOrder(actions);
    if r.CycleError? {
      return;
    }
    AddNodes(graph, r.order);
    var byId, keys := Index(actions);
    var hasDependents := AddDependencies(graph, actions, byId);
    AttachStart(graph, actions, r.order);
    AttachEnd(graph, actions, byId.Keys, hasDependents);
    EdgesInAll(actions, graph.edges);
  }

  lemma EdgesInAll(actions: seq<Action>, edges: Edges)
    requires edges == {} + DependencyEdges(actions, ById(actions).Keys) + StartEdges(ById(actions)) +
                      EndEdges(actions, ById(actions).Keys)
    ensures edges == AllEdges(actions)
  {
  }

  method AddNodes(graph: StateGraph, ordered: seq<Action>)
    requires graph.nodes == []
    modifies graph
    ensures NodesAre(graph.nodes, ordered) && graph.edges == old(graph.edges)
  {
    for i := 0 to |ordered|
      invariant NodesAre(graph.nodes, ordered[..i]) && graph.edges == old(graph.edges)
    {
      graph.AddNode(Act(ordered[i].id));
    }
  }

  method AddDependencies(graph: StateGraph, actions: seq<Action>, byId: map<string, Action>)
    returns (hasDependents: map<string, bool>)
    requires byId == ById(actions)
    modifies graph
    ensures graph.nodes == old(graph.nodes)
    ensures graph.edges == old(graph.edges) + DependencyEdges(actions, byId.Keys)
    ensures hasDependents.Keys == byId.Keys
    ensures forall id :: id in byId ==> (hasDependents[id] <==> HasDependents(actions, id))
  {
    hasDependents := map id | id in byId :: false;
    for i := 0 to |actions|
      invariant graph.nodes == old(graph.nodes)
      invariant graph.edges == old(graph.edges) + DependencyEdges(actions[..i], byId.Keys)
      invariant hasDependents.Keys == byId.Keys
      invariant forall id :: id in byId ==> (hasDependents[id] <==> HasDependents(actions[..i], id))
    {
      ghost var edges0, has0 := graph.edges, hasDependents;
      hasDependents := AddOne(graph, actions[i], byId.Keys, hasDependents);
      DependencyStep(actions, i, byId.Keys);
    }
    assert actions[..|actions|] == actions;
  }

  lemma DependencyStep(actions: seq<Action>, i: nat, ids: set<string>)
    requires i < |actions|
    ensures DependencyEdges(actions[..i + 1], ids) ==
            DependencyEdges(actions[..i], ids) + DependencyEdges([actions[i]], ids)
    ensures forall id :: HasDependents(actions[..i + 1], id) <==>
                         HasDependents(actions[..i], id) || id in actions[i].dependsOn
  {
    assert actions[..i + 1] == actions[..i] + [actions[i]];
    forall id | HasDependents(actions[..i], id) || id in actions[i].dependsOn
      ensures HasDependents(actions[..i + 1], id) {
      if id in actions[i].dependsOn {
        assert actions[i] in actions[..i + 1];
      } else {
        var a :| a in actions[..i] && id in a.dependsOn;
        assert a in actions[..i + 1];
      }
    }
  }

  method AddOne(graph: StateGraph, a: Action, ids: set<string>, has0: map<string, bool>)
    returns (has: map<string, bool>)
    requires has0.Keys == ids
    modifies graph
    ensures graph.nodes == old(graph.nodes)
    ensures graph.edges == old(graph.edges) + DependencyEdges([a], ids)
    ensures has.Keys == ids
    ensures forall id :: id in ids ==> (has[id] <==> has0[id] || id in a.dependsOn)
  {
    has := has0;
    for k := 0 to |a.dependsOn|
      invariant graph.nodes == old(graph.nodes)
      invariant graph.edges == old(graph.edges) + EdgesInto(a.id, a.dependsOn[..k], ids)
      invariant has.Keys == ids
      invariant forall id :: id in ids ==> (has[id] <==> has0[id] || id in a.dependsOn[..k])
    {
      var dep := a.dependsOn[k];
      assert a.dependsOn[..k + 1] == a.dependsOn[..k] + [dep];
      if dep in ids {
        graph.AddEdge(Act(dep), Act(a.id));
        has := has[dep := true];
      }
      assert EdgesInto(a.id, a.dependsOn[..k + 1], ids) ==
             EdgesInto(a.id, a.dependsOn[..k], ids) + if dep in ids then {(Act(dep), Act(a.id))} else {};
    }
    assert a.dependsOn[..|a.dependsOn|] == a.dependsOn;
    assert DependencyEdges([a], ids) == EdgesInto(a.id, a.dependsOn, ids);
  }

  ghost function EdgesInto(id: string, deps: seq<string>, ids: set<string>): Edges
  {
    set d | d in deps && d in ids :: (Act(d), Act(id))
  }

  ghost function StartEdgesOf(ordered: seq<Action>): Edges
  {
    set a | a in ordered && a.dependsOn == [] :: (Start, Act(a.id))
  }

  method AttachStart(graph: StateGraph, ghost actions: seq<Action>, ordered: seq<Action>)
    requires TopologicalResult(actions) == Scheduled(ordered)
    modifies graph
    ensures graph.nodes == old(graph.nodes)
    ensures graph.edges == old(graph.edges) + StartEdges(ById(actions))
  {
    for i := 0 to |ordered|
      invariant graph.nodes == old(graph.nodes)
      invariant graph.edges == old(graph.edges) + StartEdgesOf(ordered[..i])
    {
      assert ordered[..i + 1] == ordered[..i] + [ordered[i]];
      assert StartEdgesOf(ordered[..i + 1]) == StartEdgesOf(ordered[..i]) +
             if ordered[i].dependsOn == [] then {(Start, Act(ordered[i].id))} else {};
      if |ordered[i].dependsOn| == 0 {
        graph.AddEdge(Start, Act(ordered[i].id));
      }
    }
    assert ordered[..|ordered|] == ordered;
    StartEdgesAgree(actions, ordered);
  }

  lemma OrderedIsIndexed(actions: seq<Action>, ordered: seq<Action>, a: Action)
    requires TopologicalResult(actions) == Scheduled(ordered) && a in ordered
    ensures a.id in ById(actions) && ById(actions)[a.id] == a
  {
    var byId := ById(actions);
    ByIdEntries(actions);
    OrderInKeys(byId);
    var order := ExecutionOrder(GraphOf(byId));
    var i :| 0 <= i < |ordered| && ordered[i] == a;
    assert order[i] in order && a == byId[order[i]];
  }

  lemma IndexedIsOrdered(actions: seq<Action>, ordered: seq<Action>, id: string)
    requires TopologicalResult(actions) == Scheduled(ordered) && id in ById(actions)
    ensures ById(actions)[id] in ordered
  {
    ByIdEntries(actions);
    ReturnedOrderIsValid(actions);
    assert id in Elems(Ids(ordered));
    var i :| 0 <= i < |ordered| && Ids(ordered)[i] == id;
    assert ordered[i] in ordered;
    OrderedIsIndexed(actions, ordered, ordered[i]);
  }

  lemma StartEdgesAgree(actions: seq<Action>, ordered: seq<Action>)
    requires TopologicalResult(actions) == Scheduled(ordered)
    ensures StartEdgesOf(ordered) == StartEdges(ById(actions))
  {
    var byId := ById(actions);
    ByIdEntries(actions);
    forall e | e in StartEdgesOf(ordered) ensures e in StartEdges(byId) {
      var a :| a in ordered && a.dependsOn == [] && e == (Start, Act(a.id));
      OrderedIsIndexed(actions, ordered, a);
    }
    forall e | e in StartEdges(byId) ensures e in StartEdgesOf(ordered) {
      var id :| id in byId && byId[id].dependsOn == [] && e == (Start, Act(id));
      IndexedIsOrdered(actions, ordered, id);
    }
  }

  method AttachEnd(graph: StateGraph, ghost actions: seq<Action>, ids: set<string>, has: map<string, bool>)
    requires has.Keys == ids
    requires forall id :: id in ids ==> (has[id] <==> HasDependents(actions, id))
    modifies graph
    ensures graph.nodes == old(graph.nodes)
    ensures graph.edges == old(graph.edges) + EndEdges(actions, ids)
  {
    var left := ids;
    while left != {}
      invariant left <= ids
      invariant graph.nodes == old(graph.nodes)
      invariant graph.edges == old(graph.edges) + EndEdges(actions, ids - left)
      decreases left
    {
      var aid :| aid in left;
      assert ids - (left - {aid}) == (ids - left) + {aid};
      assert EndEdges(actions, (ids - left) + {aid}) == EndEdges(actions, ids - left) + EndEdges(actions, {aid});
      if !has[aid] {
        graph.AddEdge(Act(aid), End);
        assert EndEdges(actions, {aid}) == {(Act(aid), End)};
      } else {
        assert EndEdges(actions, {aid}) == {};
      }
      left := left - {aid};
    }
    assert ids - left == ids;
  }

  // ---- Reachability -----------------------------------------------------------------

  ghost predicate IsPath(edges: Edges, p: seq<Node>)
  {
    |p| > 0 && forall i :: 0 <= i < |p| - 1 ==> (p[i], p[i + 1]) in edges
  }

  ghost predicate Connected(edges: Edges, u: Node, v: Node)
  {
    exists p :: IsPath(edges, p) && p[0] == u && p[|p| - 1] == v
  }

  lemma Prepend(edges: Edges, u: Node, w: Node, v: Node)
    requires (u, w) in edges && Connected(edges, w, v)
    ensures Connected(edges, u, v)
  {
    var p :| IsPath(edges, p) && p[0] == w && p[|p| - 1] == v;
    var q := [u] + p;
    assert forall i :: 1 <= i < |q| ==> q[i] == p[i - 1];
    assert IsPath(edges, q);
  }

  lemma Append(edges: Edges, u: Node, w: Node, v: Node)
    requires Connected(edges, u, w) && (w, v) in edges
    ensures Connected(edges, u, v)
  {
    var p :| IsPath(edges, p) && p[0] == u && p[|p| - 1] == w;
    var q := p + [v];
    assert IsPath(edges, q);
  }

  lemma Trivial(edges: Edges, u: Node)
    ensures Connected(edges, u, u)
  {
    assert IsPath(edges, [u]);
  }

  // What an id waits for in the manifest, by any of the actions that carry it.
  ghost function Merged(actions: seq<Action>): Graph
  {
    map id | id in Elems(Ids(actions)) :: MergedDependencies(actions, id)
  }

  ghost function MergedDependencies(actions: seq<Action>, id: string): set<string>
  {
    set a, d | a in actions && a.id == id && d in a.dependsOn && d in Elems(Ids(actions)) :: d
  }

  lemma MergedEdges(actions: seq<Action>, d: string, id: string)
    ensures (Act(d), Act(id)) in AllEdges(actions) <==> id in Merged(actions) && d in Merged(actions)[id]
  {
    InnerEdgesAreDependencies(actions, d, id);
    forall a | a in actions ensures a.id in Elems(Ids(actions)) {
      var i :| 0 <= i < |actions| && actions[i] == a;
      assert Ids(actions)[i] == a.id;
    }
  }

  // With distinct ids that is the graph that is scheduled; repeated ids may add to it.
  lemma MergedContains(actions: seq<Action>)
    ensures Merged(actions).Keys == GraphOf(ById(actions)).Keys
    ensures forall id :: id in Merged(actions) ==> GraphOf(ById(actions))[id] <= Merged(actions)[id]
    ensures Distinct(Ids(actions)) ==> Merged(actions) == GraphOf(ById(actions))
  {
    ByIdFacts(actions);
    var m, g := Merged(actions), GraphOf(ById(actions));
    assert m.Keys == g.Keys;
    forall id, d | id in m && d in g[id] ensures d in m[id] {
      assert ById(actions)[id] in actions;
    }
    if Distinct(Ids(actions)) {
      forall id | id in m ensures m[id] == g[id] {
      }
    }
  }

  lemma MergedAcyclicSchedules(actions: seq<Action>)
    requires Acyclic(Merged(actions))
    ensures TopologicalResult(actions).Scheduled?
  {
    MergedContains(actions);
    var f := map id | id in Merged(actions) :: id;
    AcyclicAlong(f, GraphOf(ById(actions)), Merged(actions));
    ReturnsIffAcyclic(actions);
  }

  // Every id once, after all that it waits for.
  ghost predicate LinedUp(actions: seq<Action>, r: seq<string>)
  {
    Distinct(r) && Elems(r) == Merged(actions).Keys && DependenciesFirst(Merged(actions), r)
  }

  lemma MergedLinesUp(actions: seq<Action>) returns (r: seq<string>)
    requires Acyclic(Merged(actions))
    ensures LinedUp(actions, r)
  {
    var g := Merged(actions);
    assert Closed(g);
    OrderIsSound(g);
    CompleteIffAcyclic(g);
    r := ExecutionOrder(g);
  }

  lemma PlaceIn(r: seq<string>, id: string) returns (i: nat)
    requires id in Elems(r)
    ensures i < |r| && r[i] == id
  {
    i :| 0 <= i < |r| && r[i] == id;
  }

  // The graph hangs together: START leads to the action and the action leads to END.
  ghost predicate Threaded(actions: seq<Action>, id: string)
  {
    Connected(AllEdges(actions), Start, Act(id)) && Connected(AllEdges(actions), Act(id), End)
  }

  // The action that stands for the id waits on nothing, or some action with the id waits on
  // something in the manifest.
  ghost predicate Anchored(actions: seq<Action>, id: string)
  {
    && id in ById(actions) && id in Merged(actions)
    && (ById(actions)[id].dependsOn == [] || Merged(actions)[id] != {})
  }

  lemma ReachesEnd(actions: seq<Action>, id: string)
    requires Acyclic(Merged(actions)) && id in Elems(Ids(actions))
    ensures Connected(AllEdges(actions), Act(id), End)
  {
    var r := MergedLinesUp(actions);
    var i := PlaceIn(r, id);
    ReachesEndFrom(actions, r, i);
  }

  lemma {:induction false} ReachesEndFrom(actions: seq<Action>, r: seq<string>, i: nat)
    requires LinedUp(actions, r) && i < |r|
    ensures Connected(AllEdges(actions), Act(r[i]), End)
    decreases |r| - i
  {
    var edges := AllEdges(actions);
    ByIdFacts(actions);
    assert r[i] in Elems(r);
    if HasDependents(actions, r[i]) {
      var k := LaterDependent(actions, r, i);
      ReachesEndFrom(actions, r, k);
      MergedEdges(actions, r[i], r[k]);
      Prepend(edges, Act(r[i]), Act(r[k]), End);
    } else {
      assert (Act(r[i]), End) in EndEdges(actions, ById(actions).Keys);
      Trivial(edges, End);
      Prepend(edges, Act(r[i]), End, End);
    }
  }

  lemma LaterDependent(actions: seq<Action>, r: seq<string>, i: nat) returns (k: nat)
    requires LinedUp(actions, r) && i < |r| && HasDependents(actions, r[i])
    ensures i < k < |r| && r[i] in Merged(actions)[r[k]]
  {
    var g := Merged(actions);
    var a :| a in actions && r[i] in a.dependsOn;
    var n :| 0 <= n < |actions| && actions[n] == a;
    assert Ids(actions)[n] == a.id;
    assert r[i] in Elems(r);
    assert r[i] in g[a.id];
    k := PlaceIn(r, a.id);
    assert r[i] in Elems(r[..k]);
    var m :| 0 <= m < k && r[m] == r[i];
  }

  lemma ReachedFromStart(actions: seq<Action>, id: string)
    requires Acyclic(Merged(actions)) && id in Elems(Ids(actions))
    requires forall v :: v in Elems(Ids(actions)) ==> Anchored(actions, v)
    ensures Connected(AllEdges(actions), Start, Act(id))
  {
    var r := MergedLinesUp(actions);
    var i := PlaceIn(r, id);
    ReachedAt(actions, r, i);
  }

  lemma {:induction false} ReachedAt(actions: seq<Action>, r: seq<string>, i: nat)
    requires LinedUp(actions, r) && i < |r|
    requires forall v :: v in Elems(Ids(actions)) ==> Anchored(actions, v)
    ensures Connected(AllEdges(actions), Start, Act(r[i]))
    decreases i
  {
    var edges := AllEdges(actions);
    assert r[i] in Elems(r);
    assert Anchored(actions, r[i]);
    if ById(actions)[r[i]].dependsOn == [] {
      assert (Start, Act(r[i])) in StartEdges(ById(actions));
      Trivial(edges, Start);
      Append(edges, Start, Start, Act(r[i]));
    } else {
      var d :| d in Merged(actions)[r[i]];
      assert d in Elems(r[..i]);
      var k := PlaceIn(r[..i], d);
      ReachedAt(actions, r, k);
      MergedEdges(actions, d, r[i]);
      Append(edges, Start, Act(d), Act(r[i]));
    }
  }

  // Nothing leads into an id that is not anchored.
  lemma UnanchoredIsCutOff(actions: seq<Action>, id: string)
    requires id in Elems(Ids(actions)) && !Anchored(actions, id)
    ensures !Connected(AllEdges(actions), Start, Act(id))
  {
    ByIdFacts(actions);
    var edges := AllEdges(actions);
    forall u: Node ensures (u, Act(id)) !in edges {
      if u.Act? {
        MergedEdges(actions, u.id, id);
      }
    }
    NoEdgeNoPath(edges, Start, Act(id));
  }

  lemma NoEdgeNoPath(edges: Edges, u: Node, v: Node)
    requires u != v && forall w :: (w, v) !in edges
    ensures !Connected(edges, u, v)
  {
    forall p | IsPath(edges, p) && p[0] == u ensures p[|p| - 1] != v {
      if |p| > 1 {
        assert (p[|p| - 2], p[|p| - 1]) in edges;
      }
    }
  }

  // The built graph threads every action between START and END exactly when every id is anchored.
  lemma ThreadedIffAnchored(actions: seq<Action>)
    requires Acyclic(Merged(actions))
    ensures (forall id :: id in Elems(Ids(actions)) ==> Threaded(actions, id)) <==>
            (forall id :: id in Elems(Ids(actions)) ==> Anchored(actions, id))
  {
    if forall id :: id in Elems(Ids(actions)) ==> Anchored(actions, id) {
      forall id | id in Elems(Ids(actions)) ensures Threaded(actions, id) {
        ReachesEnd(actions, id);
        ReachedFromStart(actions, id);
      }
    } else {
      var id :| id in Elems(Ids(actions)) && !Anchored(actions, id);
      UnanchoredIsCutOff(actions, id);
      assert !Threaded(actions, id);
    }
  }

  // ---- Any manifest -----------------------------------------------------------------

  // Ids that all wait for something, in the manifest for one another only.
  ghost predicate Island(actions: seq<Action>, s: set<string>)
  {
    && s != {} && s <= Merged(actions).Keys && s <= ById(actions).Keys
    && forall id :: id in s ==> ById(actions)[id].dependsOn != [] && Merged(actions)[id] <= s
  }

  // Ids that something waits for, and only one another.
  ghost predicate Trap(actions: seq<Action>, s: set<string>)
  {
    && s != {} && s <= Merged(actions).Keys
    && (forall id :: id in s ==> HasDependents(actions, id))
    && forall id, v :: id in s && v in Merged(actions) && id in Merged(actions)[v] ==> v in s
  }

  lemma OuterEdges(actions: seq<Action>, id: string)
    requires id in Merged(actions)
    ensures id in ById(actions)
    ensures (Start, Act(id)) in AllEdges(actions) <==> ById(actions)[id].dependsOn == []
    ensures (Act(id), End) in AllEdges(actions) <==> !HasDependents(actions, id)
  {
    ByIdFacts(actions);
  }

  // With no condition on the ids at all: every action is threaded exactly when the manifest holds
  // no island and no trap.
  lemma ThreadedIffNoTrap(actions: seq<Action>)
    ensures (forall id :: id in Elems(Ids(actions)) ==> Threaded(actions, id)) <==>
            (forall s :: !Island(actions, s) && !Trap(actions, s))
  {
    if forall id :: id in Elems(Ids(actions)) ==> Threaded(actions, id) {
      forall s ensures !Island(actions, s) && !Trap(actions, s) {
        if id :| id in s && s <= Elems(Ids(actions)) {
          IslandIsCutOff(actions, s, id);
          TrapIsKept(actions, s, id);
        }
      }
    } else {
      var id :| id in Elems(Ids(actions)) && !Threaded(actions, id);
      if !Connected(AllEdges(actions), Start, Act(id)) {
        UnreachedIsIsland(actions, id);
      } else {
        StuckIsTrap(actions, id);
      }
    }
  }

  ghost function Nodes(s: set<string>): set<Node>
  {
    set id | id in s :: Act(id)
  }

  // A path never enters what no edge leads into, and never leaves what no edge leads out of.
  lemma {:induction false} PathKeepsOut(edges: Edges, nodes: set<Node>, p: seq<Node>, k: nat)
    requires IsPath(edges, p) && k < |p| && p[0] !in nodes
    requires forall u, v :: (u, v) in edges && v in nodes ==> u in nodes
    ensures p[k] !in nodes
  {
    if k > 0 {
      PathKeepsOut(edges, nodes, p, k - 1);
      assert (p[k - 1], p[k]) in edges;
    }
  }

  lemma {:induction false} PathKeepsIn(edges: Edges, nodes: set<Node>, p: seq<Node>, k: nat)
    requires IsPath(edges, p) && k < |p| && p[0] in nodes
    requires forall u, v :: (u, v) in edges && u in nodes ==> v in nodes
    ensures p[k] in nodes
  {
    if k > 0 {
      PathKeepsIn(edges, nodes, p, k - 1);
      assert (p[k - 1], p[k]) in edges;
    }
  }

  lemma IslandIsCutOff(actions: seq<Action>, s: set<string>, id: string)
    requires id in s
    ensures Island(actions, s) ==> !Connected(AllEdges(actions), Start, Act(id))
  {
    if Island(actions, s) {
      var edges := AllEdges(actions);
      forall u, v | (u, v) in edges && v in Nodes(s) ensures u in Nodes(s) {
        IntoIsland(actions, s, u, v);
      }
      forall p | IsPath(edges, p) && p[0] == Start ensures p[|p| - 1] != Act(id) {
        PathKeepsOut(edges, Nodes(s), p, |p| - 1);
      }
    }
  }

  lemma IntoIsland(actions: seq<Action>, s: set<string>, u: Node, v: Node)
    requires Island(actions, s) && (u, v) in AllEdges(actions) && v in Nodes(s)
    ensures u in Nodes(s)
  {
    OuterEdges(actions, v.id);
    if u.Act? {
      MergedEdges(actions, u.id, v.id);
    }
  }

  lemma TrapIsKept(actions: seq<Action>, s: set<string>, id: string)
    requires id in s
    ensures Trap(actions, s) ==> !Connected(AllEdges(actions), Act(id), End)
  {
    if Trap(actions, s) {
      var edges := AllEdges(actions);
      forall u, v | (u, v) in edges && u in Nodes(s) ensures v in Nodes(s) {
        OutOfTrap(actions, s, u, v);
      }
      forall p | IsPath(edges, p) && p[0] == Act(id) ensures p[|p| - 1] != End {
        PathKeepsIn(edges, Nodes(s), p, |p| - 1);
      }
    }
  }

  lemma OutOfTrap(actions: seq<Action>, s: set<string>, u: Node, v: Node)
    requires Trap(actions, s) && (u, v) in AllEdges(actions) && u in Nodes(s)
    ensures v in Nodes(s)
  {
    OuterEdges(actions, u.id);
    if v.Act? {
      MergedEdges(actions, u.id, v.id);
    }
  }

  // Whatever START does not reach is an island.
  lemma UnreachedIsIsland(actions: seq<Action>, id: string)
    requires id in Elems(Ids(actions)) && !Connected(AllEdges(actions), Start, Act(id))
    ensures exists s :: Island(actions, s)
  {
    var edges, g := AllEdges(actions), Merged(actions);
    var s := set v | v in g && !Connected(edges, Start, Act(v));
    forall v | v in s ensures v in ById(actions) && ById(actions)[v].dependsOn != [] && g[v] <= s {
      OuterEdges(actions, v);
      Trivial(edges, Start);
      if (Start, Act(v)) in edges {
        Append(edges, Start, Start, Act(v));
      }
      forall d | d in g[v] ensures d in s {
        MergedEdges(actions, d, v);
        if Connected(edges, Start, Act(d)) {
          Append(edges, Start, Act(d), Act(v));
        }
      }
    }
    assert id in s;
    assert Island(actions, s);
  }

  // Whatever does not lead to END is a trap.
  lemma StuckIsTrap(actions: seq<Action>, id: string)
    requires id in Elems(Ids(actions)) && !Connected(AllEdges(actions), Act(id), End)
    ensures exists s :: Trap(actions, s)
  {
    var edges, g := AllEdges(actions), Merged(actions);
    var s := set v | v in g && !Connected(edges, Act(v), End);
    forall v | v in s ensures HasDependents(actions, v) {
      OuterEdges(actions, v);
      Trivial(edges, End);
      if (Act(v), End) in edges {
        Prepend(edges, Act(v), End, End);
      }
    }
    forall d, v | d in s && v in g && d in g[v] ensures v in s {
      MergedEdges(actions, d, v);
      if Connected(edges, Act(v), End) {
        Prepend(edges, Act(d), Act(v), End);
      }
    }
    assert id in s;
    assert Trap(actions, s);
  }

  // A repeated id can close a cycle that the scheduler, which sees its last action alone, does
  // not see: "a" waits for "b" in the first action and for nothing in the last.
  ghost predicate Repeating(actions: seq<Action>)
  {
    && |actions| == 3
    && actions[0].id == "a" && actions[0].dependsOn == ["b"]
    && actions[1].id == "b" && actions[1].dependsOn == ["a"]
    && actions[2].id == "a" && actions[2].dependsOn == []
  }

  // It is scheduled and every id is anchored, but nothing leads to END.
  lemma RepeatedIdCanTrap(actions: seq<Action>)
    requires Repeating(actions)
    ensures TopologicalResult(actions).Scheduled?
    ensures forall id :: id in Elems(Ids(actions)) ==> Anchored(actions, id)
    ensures forall id :: id in Elems(Ids(actions)) ==> !Connected(AllEdges(actions), Act(id), End)
    ensures !Acyclic(Merged(actions))
  {
    RepeatingIndex(actions);
    RepeatingMerged(actions);
    RepeatingSchedules(actions);
    NoWayToEnd(actions);
    RepeatingAnchored(actions);
    TwoCycle(Merged(actions), "a", "b");
  }

  lemma RepeatingAnchored(actions: seq<Action>)
    requires ById(actions).Keys == {"a", "b"} == Elems(Ids(actions))
    requires Merged(actions) == map["a" := {"b"}, "b" := {"a"}]
    ensures forall id :: id in Elems(Ids(actions)) ==> Anchored(actions, id)
  {
  }

  lemma TwoCycle(g: Graph, u: string, v: string)
    requires u in g && v in g && u in g[v] && v in g[u]
    ensures !Acyclic(g)
  {
    assert IsCycle(g, [u, v, u]);
  }

  lemma NoWayToEnd(actions: seq<Action>)
    requires Repeating(actions) && ById(actions).Keys == {"a", "b"}
    ensures forall id :: !Connected(AllEdges(actions), Act(id), End)
  {
    forall id | id in {"a", "b"} ensures HasDependents(actions, id) {
      assert actions[0] in actions && actions[1] in actions;
    }
    assert EndEdges(actions, {"a", "b"}) == {};
    forall id ensures !Connected(AllEdges(actions), Act(id), End) {
      NoEdgeNoPath(AllEdges(actions), Act(id), End);
    }
  }

  lemma RepeatingIndex(actions: seq<Action>)
    requires Repeating(actions)
    ensures Elems(Ids(actions)) == {"a", "b"}
    ensures ById(actions) == map["a" := actions[2], "b" := actions[1]]
  {
    var x, y, z := actions[0], actions[1], actions[2];
    assert Ids(actions) == ["a", "b", "a"];
    assert actions == [] + [x] + [y] + [z];
    ByIdSnoc([], x);
    ByIdSnoc([] + [x], y);
    ByIdSnoc([] + [x] + [y], z);
    assert ById(actions) == map["a" := x]["b" := y]["a" := z];
  }

  lemma RepeatingMerged(actions: seq<Action>)
    requires Repeating(actions) && Elems(Ids(actions)) == {"a", "b"}
    ensures Merged(actions) == map["a" := {"b"}, "b" := {"a"}]
  {
    MergedMember(actions, 0, "b");
    MergedMember(actions, 1, "a");
    forall id, d | id in {"a", "b"} && d in MergedDependencies(actions, id) ensures d != id {
      var a :| a in actions && a.id == id && d in a.dependsOn;
    }
    assert MergedDependencies(actions, "a") == {"b"} && MergedDependencies(actions, "b") == {"a"};
  }

  lemma MergedMember(actions: seq<Action>, i: nat, d: string)
    requires i < |actions| && d in actions[i].dependsOn && d in Elems(Ids(actions))
    ensures d in MergedDependencies(actions, actions[i].id)
  {
  }

  lemma RepeatingSchedules(actions: seq<Action>)
    requires ById(actions).Keys == {"a", "b"}
    requires ById(actions)["a"].dependsOn == [] && ById(actions)["b"].dependsOn == ["a"]
    ensures TopologicalResult(actions).Scheduled?
  {
    var g := GraphOf(ById(actions));
    assert g.Keys == {"a", "b"} && g["a"] == {} && g["b"] == {"a"};
    var rank := map["a" := 0, "b" := 1];
    RankedIsAcyclic(g, rank);
    ReturnsIffAcyclic(actions);
  }

  // Between actions the edges are the dependency pairs and nothing else.
  lemma InnerEdgesAreDependencies(actions: seq<Action>, d: string, id: string)
    ensures (Act(d), Act(id)) in AllEdges(actions) <==>
            (exists a :: a in actions && a.id == id && d in a.dependsOn) && d in Elems(Ids(actions))
  {
    ByIdFacts(actions);
    var ids := ById(actions).Keys;
    if a :| a in actions && a.id == id && d in a.dependsOn && d in ids {
      assert (Act(d), Act(a.id)) in DependencyEdges(actions, ids);
    }
  }
}
