// topological_order of adapters/python/acp_common: counters, child lists and a queue,
// proved against the order of module Schedule.

module Ordering {
  import opened Order
  import opened Graph
  import opened Manifest
  import opened Schedule
  import opened Chains

  datatype Outcome = Scheduled(order: seq<Action>) | CycleError(ids: seq<string>)

  // The dictionary by_id: the last action with an id wins.
  function ById(actions: seq<Action>): map<string, Action>
  {
    if actions == [] then map[] else
      var last := actions[|actions| - 1];
      ById(actions[..|actions| - 1])[last.id := last]
  }

  lemma ByIdSnoc(actions: seq<Action>, a: Action)
    ensures ById(actions + [a]) == ById(actions)[a.id := a]
  {
    assert (actions + [a])[..|actions|] == actions;
  }

  // Dependencies inside the manifest; anything else counts as already done.
  ghost function GraphOf(byId: map<string, Action>): Graph
  {
    map id | id in byId :: Inside(byId[id].dependsOn, byId.Keys)
  }

  ghost function Inside(deps: seq<string>, keys: set<string>): set<string>
  {
    set d | d in deps && d in keys
  }

  // How many entries of deps are in the manifest and not yet done, repetitions included.
  function Pending(deps: seq<string>, keys: set<string>, done: set<string>): nat
  {
    if deps == [] then 0 else
      var last := deps[|deps| - 1];
      Pending(deps[..|deps| - 1], keys, done) + if last in keys && last !in done then 1 else 0
  }

  function Kids(children: map<string, seq<string>>, d: string): seq<string>
  {
    if d in children then children[d] else []
  }

  lemma {:induction false} PendingIsZero(deps: seq<string>, keys: set<string>, done: set<string>)
    ensures Pending(deps, keys, done) == 0 <==> Inside(deps, keys) <= done
  {
    if deps != [] {
      var init, last := deps[..|deps| - 1], deps[|deps| - 1];
      assert deps == init + [last];
      PendingIsZero(init, keys, done);
      assert Inside(deps, keys) == Inside(init, keys) + if last in keys then {last} else {};
    }
  }

  lemma {:induction false} PendingAfter(deps: seq<string>, keys: set<string>, done: set<string>, u: string)
    requires u in keys && u !in done
    ensures Pending(deps, keys, done) == Pending(deps, keys, done + {u}) + multiset(deps)[u]
  {
    if deps != [] {
      var init, last := deps[..|deps| - 1], deps[|deps| - 1];
      assert deps == init + [last];
      PendingAfter(init, keys, done, u);
    }
  }

  // indeg and children describe the actions whose ids are in seen.
  ghost predicate Counted(byId: map<string, Action>, seen: set<string>,
                          indeg: map<string, nat>, children: map<string, seq<string>>)
    requires seen <= byId.Keys
  {
    && indeg.Keys == seen
    && (forall c :: c in seen ==> indeg[c] == Pending(byId[c].dependsOn, byId.Keys, {}))
    && forall c, d :: multiset(Kids(children, d))[c] == Multiplicity(byId, seen, c, d)
  }

  ghost function Multiplicity(byId: map<string, Action>, seen: set<string>, c: string, d: string): nat
    requires seen <= byId.Keys
  {
    if c in seen && d in byId then multiset(byId[c].dependsOn)[d] else 0
  }

  // children is children0 with id added under each in-manifest entry of deps.
  ghost predicate Linked(children: map<string, seq<string>>, children0: map<string, seq<string>>,
                         id: string, keys: set<string>, deps: seq<string>)
  {
    forall c, d :: multiset(Kids(children, d))[c] ==
      multiset(Kids(children0, d))[c] + Links(id, keys, deps, c, d)
  }

  ghost function Links(id: string, keys: set<string>, deps: seq<string>, c: string, d: string): nat
  {
    if c == id && d in keys then multiset(deps)[d] else 0
  }

  function AddChild(children: map<string, seq<string>>, d: string, id: string): map<string, seq<string>>
  {
    children[d := Kids(children, d) + [id]]
  }

  lemma AddChildCount(children: map<string, seq<string>>, dep: string, id: string, c: string, d: string)
    ensures multiset(Kids(AddChild(children, dep, id), d))[c] ==
            multiset(Kids(children, d))[c] + if d == dep && c == id then 1 else 0
  {
  }

  lemma LinkStep(children: map<string, seq<string>>, children0: map<string, seq<string>>,
                 id: string, keys: set<string>, deps: seq<string>, dep: string)
    requires Linked(children, children0, id, keys, deps)
    ensures Linked(if dep in keys then AddChild(children, dep, id) else children, children0, id, keys, deps + [dep])
  {
    var next := if dep in keys then AddChild(children, dep, id) else children;
    forall c, d ensures multiset(Kids(next, d))[c] ==
                        multiset(Kids(children0, d))[c] + Links(id, keys, deps + [dep], c, d) {
      AddChildCount(children, dep, id, c, d);
      LinksStep(id, keys, deps, dep, c, d);
    }
  }

  lemma LinksStep(id: string, keys: set<string>, deps: seq<string>, dep: string, c: string, d: string)
    ensures Links(id, keys, deps + [dep], c, d) ==
            Links(id, keys, deps, c, d) + if c == id && dep in keys && d == dep then 1 else 0
  {
  }

  lemma PendingNext(deps: seq<string>, k: nat, keys: set<string>, done: set<string>)
    requires k < |deps|
    ensures deps[..k + 1] == deps[..k] + [deps[k]]
    ensures Pending(deps[..k + 1], keys, done) ==
            Pending(deps[..k], keys, done) + if deps[k] in keys && deps[k] !in done then 1 else 0
  {
    assert deps[..k + 1][..k] == deps[..k];
  }

  method CountDependencies(id: string, deps: seq<string>, keys: set<string>,
                           indeg0: map<string, nat>, children0: map<string, seq<string>>)
    returns (indeg: map<string, nat>, children: map<string, seq<string>>)
    requires id !in indeg0
    ensures indeg == indeg0[id := Pending(deps, keys, {})]
    ensures Linked(children, children0, id, keys, deps)
  {
    indeg, children := indeg0[id := 0], children0;
    for k := 0 to |deps|
      invariant indeg == indeg0[id := Pending(deps[..k], keys, {})]
      invariant Linked(children, children0, id, keys, deps[..k])
    {
      var dep := deps[k];
      LinkStep(children, children0, id, keys, deps[..k], dep);
      PendingNext(deps, k, keys, {});
      if dep in keys {
        indeg := indeg[id := indeg[id] + 1];
        children := AddChild(children, dep, id);
      }
    }
    assert deps[..|deps|] == deps;
  }

  lemma CountedStep(byId: map<string, Action>, seen: set<string>, id: string,
                    indeg: map<string, nat>, children0: map<string, seq<string>>, children: map<string, seq<string>>)
    requires seen <= byId.Keys && id in byId && id !in seen
    requires Counted(byId, seen, indeg, children0)
    requires Linked(children, children0, id, byId.Keys, byId[id].dependsOn)
    ensures Counted(byId, seen + {id}, indeg[id := Pending(byId[id].dependsOn, byId.Keys, {})], children)
  {
    forall c, d ensures multiset(Kids(children, d))[c] == Multiplicity(byId, seen + {id}, c, d) {
      assert multiset(Kids(children0, d))[c] == Multiplicity(byId, seen, c, d);
      assert multiset(Kids(children, d))[c] ==
             multiset(Kids(children0, d))[c] + Links(id, byId.Keys, byId[id].dependsOn, c, d);
    }
  }

  lemma NextKey(order: seq<string>, i: nat)
    requires Distinct(order) && i < |order|
    ensures order[i] in Elems(order) && order[i] !in Elems(order[..i])
    ensures Elems(order[..i + 1]) == Elems(order[..i]) + {order[i]}
  {
    assert order[..i + 1] == order[..i] + [order[i]];
  }

  method CountAll(byId: map<string, Action>, order: seq<string>)
    returns (indeg: map<string, nat>, children: map<string, seq<string>>)
    requires Distinct(order) && Elems(order) == byId.Keys
    ensures Remaining(byId, {}, indeg) && ChildrenOf(byId, children)
  {
    indeg, children := map[], map[];
    for i := 0 to |order|
      invariant Elems(order[..i]) <= byId.Keys
      invariant Counted(byId, Elems(order[..i]), indeg, children)
    {
      NextKey(order, i);
      var id := order[i];
      ghost var before, indeg0 := children, indeg;
      indeg, children := CountDependencies(id, byId[id].dependsOn, byId.Keys, indeg, children);
      CountedStep(byId, Elems(order[..i]), id, indeg0, before, children);
    }
    assert order[..|order|] == order;
  }

  // The counters after the actions in done have been scheduled.
  ghost predicate Remaining(byId: map<string, Action>, done: set<string>, indeg: map<string, nat>)
  {
    && indeg.Keys == byId.Keys
    && forall c :: c in byId ==> indeg[c] == Pending(byId[c].dependsOn, byId.Keys, done)
  }

  ghost function Exhausted(kids: seq<string>, indeg: map<string, nat>): set<string>
    requires forall c :: c in kids ==> c in indeg
  {
    set c | c in kids && indeg[c] == multiset(kids)[c]
  }

  ghost predicate Lowered(indeg: map<string, nat>, indeg0: map<string, nat>, kids: seq<string>)
  {
    && indeg.Keys == indeg0.Keys
    && forall c :: c in indeg ==> indeg[c] + multiset(kids)[c] == indeg0[c]
  }

  ghost predicate Covers(indeg: map<string, nat>, kids: seq<string>)
  {
    forall c :: c in kids ==> c in indeg && multiset(kids)[c] <= indeg[c]
  }

  lemma LowerStep(indeg: map<string, nat>, indeg0: map<string, nat>, kids: seq<string>, k: nat)
    requires k < |kids| && Covers(indeg0, kids) && Lowered(indeg, indeg0, kids[..k])
    ensures kids[k] in indeg && indeg[kids[k]] > 0
    ensures Lowered(indeg[kids[k] := indeg[kids[k]] - 1], indeg0, kids[..k + 1])
  {
    PrefixCount(kids, k);
    assert multiset(kids[..k + 1])[kids[k]] <= multiset(kids)[kids[k]];
  }

  // The loop over the sorted children of one scheduled action.
  method ReleaseChildren(kids: seq<string>, indeg0: map<string, nat>)
    returns (indeg: map<string, nat>, added: seq<string>)
    requires SortedBy(kids, Le) && Covers(indeg0, kids)
    ensures Lowered(indeg, indeg0, kids)
    ensures added == SortedSet(Exhausted(kids, indeg0))
  {
    indeg, added := indeg0, [];
    for k := 0 to |kids|
      invariant Lowered(indeg, indeg0, kids[..k])
      invariant Ascending(added)
      invariant Elems(added) == Exhausted(kids[..k], indeg0)
    {
      var child := kids[k];
      LowerStep(indeg, indeg0, kids, k);
      ExhaustedStep(kids, k, indeg0);
      indeg := indeg[child := indeg[child] - 1];
      if indeg[child] == 0 {
        AppendAscends(kids, k, added, indeg0);
        added := added + [child];
      }
    }
    assert kids[..|kids|] == kids;
    AscendingIsSortedSet(added);
  }

  lemma PrefixCount(kids: seq<string>, k: nat)
    requires k < |kids|
    ensures kids[..k + 1] == kids[..k] + [kids[k]]
    ensures forall c :: multiset(kids[..k + 1])[c] <= multiset(kids)[c]
  {
    assert kids == kids[..k + 1] + kids[k + 1..];
  }

  lemma ExhaustedStep(kids: seq<string>, k: nat, indeg: map<string, nat>)
    requires k < |kids|
    requires Covers(indeg, kids)
    ensures Exhausted(kids[..k + 1], indeg) == Exhausted(kids[..k], indeg) +
              if indeg[kids[k]] == multiset(kids[..k + 1])[kids[k]] then {kids[k]} else {}
    ensures kids[k] !in Exhausted(kids[..k], indeg)
  {
    PrefixCount(kids, k);
    var child := kids[k];
    forall c ensures c in kids[..k + 1] <==> c in kids[..k] || c == child {
    }
    assert multiset(kids[..k + 1])[child] == multiset(kids[..k])[child] + 1;
  }

  lemma AppendAscends(kids: seq<string>, k: nat, added: seq<string>, indeg: map<string, nat>)
    requires k < |kids| && SortedBy(kids, Le) && Ascending(added)
    requires Covers(indeg, kids)
    requires Elems(added) == Exhausted(kids[..k], indeg)
    ensures Ascending(added + [kids[k]])
    ensures Elems(added + [kids[k]]) == Elems(added) + {kids[k]}
  {
    ExhaustedStep(kids, k, indeg);
    forall i | 0 <= i < |added| ensures Lt(added[i], kids[k]) {
      assert added[i] in Elems(added);
      var j :| 0 <= j < k && kids[j] == added[i];
    }
    assert forall x :: x in added + [kids[k]] <==> x in added || x == kids[k];
  }

  // What the children of u lose is what u contributed to them.
  lemma ReleaseMatches(byId: map<string, Action>, done: seq<string>, u: string,
                       indeg: map<string, nat>, kids: seq<string>)
    requires u in byId && u !in done && Remaining(byId, Elems(done), indeg)
    requires forall c :: multiset(kids)[c] == Multiplicity(byId, byId.Keys, c, u)
    ensures Covers(indeg, kids)
    ensures forall after :: Lowered(after, indeg, kids) ==> Remaining(byId, Elems(done) + {u}, after)
    ensures Exhausted(kids, indeg) == Released(GraphOf(byId), done, u)
  {
    var g := GraphOf(byId);
    forall c | c in kids ensures c in byId {
      assert multiset(kids)[c] > 0;
    }
    forall c | c in byId
      ensures indeg[c] == Pending(byId[c].dependsOn, byId.Keys, Elems(done) + {u}) + multiset(kids)[c]
      ensures c in kids && indeg[c] == multiset(kids)[c] <==> u in g[c] && g[c] <= Elems(done) + {u}
    {
      var deps := byId[c].dependsOn;
      PendingAfter(deps, byId.Keys, Elems(done), u);
      PendingIsZero(deps, byId.Keys, Elems(done) + {u});
      assert c in kids <==> multiset(kids)[c] > 0;
      assert u in deps <==> multiset(deps)[u] > 0;
    }
  }

  // What topological_order returns, in terms of the dependency graph alone.
  ghost function TopologicalResult(actions: seq<Action>): Outcome
  {
    var byId := ById(actions);
    var order := ExecutionOrder(GraphOf(byId));
    OrderInKeys(byId);
    if |order| == |byId| then Scheduled(Select(byId, order)) else CycleError(SortedSet(byId.Keys))
  }

  lemma OrderInKeys(byId: map<string, Action>)
    ensures forall id :: id in ExecutionOrder(GraphOf(byId)) ==> id in byId
  {
    OrderIsSound(GraphOf(byId));
    assert GraphOf(byId).Keys == byId.Keys;
    var order := ExecutionOrder(GraphOf(byId));
    forall id | id in order ensures id in byId {
      assert id in Elems(order);
    }
  }

  method TopologicalOrder(actions: seq<Action>) returns (r: Outcome)
    ensures r == TopologicalResult(actions)
  {
    var byId, keys := Index(actions);
    var indeg, children := CountAll(byId, keys);
    var out := RunQueue(byId, indeg, children);
    OrderInKeys(byId);
    assert |Ids(out)| == |out|;
    if |out| != |byId| {
      var ids := SortedKeys(byId.Keys);
      return CycleError(ids);
    }
    SelectListed(byId, out);
    return Scheduled(out);
  }

  lemma SelectListed(byId: map<string, Action>, out: seq<Action>)
    requires Listed(byId, out)
    ensures forall id :: id in Ids(out) ==> id in byId
    ensures Select(byId, Ids(out)) == out
  {
  }

  ghost predicate Listed(byId: map<string, Action>, out: seq<Action>)
  {
    forall i :: 0 <= i < |out| ==> out[i].id in byId && out[i] == byId[out[i].id]
  }

  method RunQueue(byId: map<string, Action>, indeg0: map<string, nat>, children: map<string, seq<string>>)
    returns (out: seq<Action>)
    requires forall id :: id in byId ==> byId[id].id == id
    requires ChildrenOf(byId, children) && Remaining(byId, {}, indeg0)
    ensures Ids(out) == ExecutionOrder(GraphOf(byId))
    ensures Listed(byId, out)
  {
    var indeg := indeg0;
    var ready := InitialQueue(byId, indeg);
    out := [];
    FrontierStart(GraphOf(byId));
    assert Elems(Ids(out)) == {};
    while ready != []
      invariant Frontier(GraphOf(byId), Ids(out), ready)
      invariant Kahn(GraphOf(byId), Ids(out), ready) == ExecutionOrder(GraphOf(byId))
      invariant Remaining(byId, Elems(Ids(out)), indeg)
      invariant Listed(byId, out)
      decreases |byId.Keys| - |out|
    {
      PopFacts(byId, Ids(out), ready);
      out, ready, indeg := ScheduleOne(byId, children, out, ready, indeg);
    }
  }

  method Index(actions: seq<Action>) returns (byId: map<string, Action>, keys: seq<string>)
    ensures byId == ById(actions)
    ensures Distinct(keys) && Elems(keys) == byId.Keys
    ensures forall id :: id in byId ==> byId[id].id == id
  {
    byId, keys := map[], [];
    for i := 0 to |actions|
      invariant byId == ById(actions[..i])
      invariant Distinct(keys) && Elems(keys) == byId.Keys
      invariant forall id :: id in byId ==> byId[id].id == id
    {
      var a := actions[i];
      assert actions[..i + 1][..i] == actions[..i];
      if a.id !in byId {
        assert a.id !in Elems(keys);
        assert Elems(keys + [a.id]) == Elems(keys) + {a.id};
        keys := keys + [a.id];
      }
      byId := byId[a.id := a];
    }
    assert actions[..|actions|] == actions;
  }

  method InitialQueue(byId: map<string, Action>, indeg: map<string, nat>) returns (ready: seq<string>)
    requires Remaining(byId, {}, indeg)
    ensures ready == SortedSet(Sources(GraphOf(byId)))
  {
    forall c | c in byId ensures indeg[c] == 0 <==> Inside(byId[c].dependsOn, byId.Keys) == {} {
      PendingIsZero(byId[c].dependsOn, byId.Keys, {});
    }
    assert (set c | c in indeg && indeg[c] == 0) == Sources(GraphOf(byId));
    ready := SortedKeys(set c | c in indeg && indeg[c] == 0);
  }

  ghost predicate ChildrenOf(byId: map<string, Action>, children: map<string, seq<string>>)
  {
    forall c, d :: multiset(Kids(children, d))[c] == Multiplicity(byId, byId.Keys, c, d)
  }

  // One turn of the main loop: pop, append, release.
  method ScheduleOne(byId: map<string, Action>, children: map<string, seq<string>>,
                     out0: seq<Action>, ready0: seq<string>, indeg0: map<string, nat>)
    returns (out: seq<Action>, ready: seq<string>, indeg: map<string, nat>)
    requires forall id :: id in byId ==> byId[id].id == id
    requires ChildrenOf(byId, children)
    requires Frontier(GraphOf(byId), Ids(out0), ready0) && ready0 != []
    requires Remaining(byId, Elems(Ids(out0)), indeg0)
    ensures ready0[0] in byId && out == out0 + [byId[ready0[0]]]
    ensures Ids(out) == Ids(out0) + [ready0[0]]
    ensures Remaining(byId, Elems(Ids(out)), indeg)
    ensures ready == ready0[1..] + SortedSet(Released(GraphOf(byId), Ids(out0), ready0[0]))
  {
    HeadIsOpen(byId, Ids(out0), ready0);
    var aid := ready0[0];
    out := out0 + [byId[aid]];
    IdsSnoc(out0, byId[aid]);
    var added;
    indeg, added := Release(byId, children, Ids(out0), aid, indeg0);
    ready := ready0[1..] + added;
  }

  method Release(byId: map<string, Action>, children: map<string, seq<string>>,
                 ghost done: seq<string>, aid: string, indeg0: map<string, nat>)
    returns (indeg: map<string, nat>, added: seq<string>)
    requires forall c :: multiset(Kids(children, aid))[c] == Multiplicity(byId, byId.Keys, c, aid)
    requires aid in byId && aid !in done && Remaining(byId, Elems(done), indeg0)
    ensures Remaining(byId, Elems(done) + {aid}, indeg)
    ensures added == SortedSet(Released(GraphOf(byId), done, aid))
  {
    LeIsTotalPreorder();
    var kids := SortSlice(Kids(children, aid), Le);
    ReleaseMatches(byId, done, aid, indeg0, kids);
    indeg, added := ReleaseChildren(kids, indeg0);
  }

  lemma IdsSnoc(out: seq<Action>, a: Action)
    ensures Ids(out + [a]) == Ids(out) + [a.id]
    ensures Elems(Ids(out + [a])) == Elems(Ids(out)) + {a.id}
  {
    assert forall x :: x in Ids(out) + [a.id] <==> x in Ids(out) || x == a.id;
  }

  lemma HeadIsOpen(byId: map<string, Action>, done: seq<string>, ready: seq<string>)
    requires Frontier(GraphOf(byId), done, ready) && ready != []
    ensures ready[0] in byId && ready[0] !in done
  {
    HeadIsNew(done, ready);
    assert ready[0] in done + ready;
    assert GraphOf(byId).Keys == byId.Keys;
  }

  lemma PopFacts(byId: map<string, Action>, done: seq<string>, ready: seq<string>)
    requires Frontier(GraphOf(byId), done, ready) && ready != []
    ensures |done| + 1 <= |byId.Keys|
    ensures Frontier(GraphOf(byId), done + [ready[0]], ready[1..] + SortedSet(Released(GraphOf(byId), done, ready[0])))
    ensures Kahn(GraphOf(byId), done, ready) ==
            Kahn(GraphOf(byId), done + [ready[0]], ready[1..] + SortedSet(Released(GraphOf(byId), done, ready[0])))
  {
    FrontierStep(GraphOf(byId), done, ready);
    FrontierBound(GraphOf(byId), done, ready);
    assert GraphOf(byId).Keys == byId.Keys;
  }

  // ---- What topological_order promises ----------------------------------------------

  lemma {:induction false} ByIdEntries(actions: seq<Action>)
    ensures ById(actions).Keys == Elems(Ids(actions))
    ensures forall id :: id in ById(actions) ==> ById(actions)[id] in actions && ById(actions)[id].id == id
  {
    if actions != [] {
      var init, last := actions[..|actions| - 1], actions[|actions| - 1];
      ByIdEntries(init);
      assert actions == init + [last];
      assert Ids(actions) == Ids(init) + [last.id];
    }
  }

  lemma ByIdOfMember(actions: seq<Action>, a: Action)
    requires Distinct(Ids(actions)) && a in actions
    ensures a.id in ById(actions) && ById(actions)[a.id] == a
  {
    ByIdEntries(actions);
    var i :| 0 <= i < |actions| && actions[i] == a;
    assert Ids(actions)[i] == a.id;
    assert a.id in Elems(Ids(actions));
    var b := ById(actions)[a.id];
    var j :| 0 <= j < |actions| && actions[j] == b;
    assert Ids(actions)[j] == Ids(actions)[i];
  }

  lemma ByIdFacts(actions: seq<Action>)
    ensures ById(actions).Keys == Elems(Ids(actions))
    ensures forall id :: id in ById(actions) ==> ById(actions)[id] in actions && ById(actions)[id].id == id
    ensures Distinct(Ids(actions)) ==> forall a :: a in actions ==> a.id in ById(actions) && ById(actions)[a.id] == a
  {
    ByIdEntries(actions);
    if Distinct(Ids(actions)) {
      forall a | a in actions ensures a.id in ById(actions) && ById(actions)[a.id] == a {
        ByIdOfMember(actions, a);
      }
    }
  }

  // It returns exactly when the in-manifest dependencies have no cycle, self-loops included.
  lemma ReturnsIffAcyclic(actions: seq<Action>)
    ensures TopologicalResult(actions).Scheduled? <==> Acyclic(GraphOf(ById(actions)))
    ensures TopologicalResult(actions).CycleError? <==> exists p :: IsCycle(GraphOf(ById(actions)), p)
  {
    var byId := ById(actions);
    CompleteIffAcyclic(GraphOf(byId));
    assert GraphOf(byId).Keys == byId.Keys;
  }

  // Each id once, and every in-manifest dependency of an action before it.
  lemma DependenciesEarlier(byId: map<string, Action>, out: seq<Action>, i: nat)
    requires DependenciesFirst(GraphOf(byId), Ids(out)) && i < |out|
    requires out[i].id in byId && out[i] == byId[out[i].id]
    ensures DepsEarlier(out, i, byId.Keys)
  {
    forall d | d in out[i].dependsOn && d in byId.Keys ensures exists k :: 0 <= k < i && out[k].id == d {
      assert Ids(out)[i] == out[i].id;
      assert d in GraphOf(byId)[out[i].id];
      assert d in Elems(Ids(out)[..i]);
      var k :| 0 <= k < i && Ids(out)[k] == d;
    }
  }

  lemma ReturnedOrderIsValid(actions: seq<Action>)
    requires TopologicalResult(actions).Scheduled?
    ensures var out := TopologicalResult(actions).order;
            && Distinct(Ids(out))
            && Elems(Ids(out)) == Elems(Ids(actions))
            && (forall i :: 0 <= i < |out| ==> out[i] in actions)
            && forall i :: 0 <= i < |out| ==> DepsEarlier(out, i, Elems(Ids(actions)))
  {
    var byId := ById(actions);
    var g := GraphOf(byId);
    var order := ExecutionOrder(g);
    var out := TopologicalResult(actions).order;
    ByIdFacts(actions);
    OrderInKeys(byId);
    OrderIsSound(g);
    CompleteIffAcyclic(g);
    assert g.Keys == byId.Keys;
    assert Ids(out) == order;
    forall i | 0 <= i < |out| ensures out[i] in actions && DepsEarlier(out, i, Elems(Ids(actions))) {
      assert out[i] == byId[order[i]];
      DependenciesEarlier(byId, out, i);
    }
  }

  ghost predicate DepsEarlier(out: seq<Action>, i: nat, ids: set<string>)
    requires i < |out|
  {
    forall d :: d in out[i].dependsOn && d in ids ==> exists k :: 0 <= k < i && out[k].id == d
  }

  // Every action has a longest chain, and the lengths never drop along the order.
  lemma ReturnedOrderIsLayered(actions: seq<Action>, i: nat, j: nat) returns (a: nat, b: nat)
    requires TopologicalResult(actions).Scheduled? && i < j < |TopologicalResult(actions).order|
    ensures IsDepth(GraphOf(ById(actions)), TopologicalResult(actions).order[i].id, a)
    ensures IsDepth(GraphOf(ById(actions)), TopologicalResult(actions).order[j].id, b)
    ensures a <= b
  {
    var byId := ById(actions);
    var g := GraphOf(byId);
    var order := ExecutionOrder(g);
    ReturnsIffAcyclic(actions);
    OrderInKeys(byId);
    ByIdFacts(actions);
    assert order[i] in order && order[j] in order;
    a := DepthExists(g, order[i]);
    b := DepthExists(g, order[j]);
    OrderIsByDepth(g, i, j, a, b);
  }

  // The returned order is canonical: by last dependency, and by id among actions with the same one.
  // For a manifest that schedules, no other sequence of ids is.
  lemma ReturnedIffCanonical(actions: seq<Action>, ids: seq<string>)
    requires TopologicalResult(actions).Scheduled?
    ensures ids == Ids(TopologicalResult(actions).order) <==> Arrangement(GraphOf(ById(actions)), ids)
  {
    ReturnsIffAcyclic(actions);
    ResultFromGraph(actions);
    OrderIffCanonical(GraphOf(ById(actions)), ids);
  }

  // Before anything runs: the returned ids are those of the manifest in the order of their greatest
  // dependency chains, and ties are broken by id exactly when no action overtakes another.
  lemma ReturnedInKeyOrder(actions: seq<Action>)
    requires TopologicalResult(actions).Scheduled?
    ensures var g, ids := GraphOf(ById(actions)), Ids(TopologicalResult(actions).order);
            && Acyclic(g) && SortedByKey(g, ids) && DependenciesFirst(g, ids)
            && (TiesBreakById(g, ids) <==> forall u, v :: u in g && v in g ==> !Overtakes(g, v, u))
  {
    var g := GraphOf(ById(actions));
    ReturnsIffAcyclic(actions);
    ResultFromGraph(actions);
    OrderIffSortedByKey(g, ExecutionOrder(g));
    TiesBreakByIdIff(g);
  }

  // Of two actions that depend on nothing in the manifest, the one whose id comes first as text
  // runs first: a1, a10, a2.
  lemma IndependentInTextOrder(actions: seq<Action>, i: nat, j: nat)
    requires TopologicalResult(actions).Scheduled?
    requires i < |TopologicalResult(actions).order| && j < |TopologicalResult(actions).order|
    requires Independent(TopologicalResult(actions).order[i], actions)
    requires Independent(TopologicalResult(actions).order[j], actions)
    ensures var order := TopologicalResult(actions).order;
            i < j <==> TextBefore(order[i].id, order[j].id)
  {
    var g, order := GraphOf(ById(actions)), TopologicalResult(actions).order;
    var r := ExecutionOrder(g);
    ByIdFacts(actions);
    ReturnsIffAcyclic(actions);
    ResultFromGraph(actions);
    assert r[i] == order[i].id && r[j] == order[j].id;
    RunsFirstIff(g, i, j);
    IndependentKey(actions, order[i], i);
    IndependentKey(actions, order[j], j);
    BeforeAppend([], r[i], [], r[j]);
    assert [] + [r[i]] == [r[i]] && [] + [r[j]] == [r[j]];
    LtIsTextBefore(r[i], r[j]);
    BeforeIrreflexive([]);
  }

  ghost predicate Independent(a: Action, actions: seq<Action>)
  {
    forall d :: d in a.dependsOn ==> d !in Elems(Ids(actions))
  }

  lemma IndependentKey(actions: seq<Action>, a: Action, i: nat)
    requires TopologicalResult(actions).Scheduled? && Acyclic(GraphOf(ById(actions)))
    requires i < |TopologicalResult(actions).order| && TopologicalResult(actions).order[i] == a
    requires Independent(a, actions)
    ensures a.id in GraphOf(ById(actions)) && Key(GraphOf(ById(actions)), a.id) == [a.id]
  {
    var byId := ById(actions);
    var g := GraphOf(byId);
    ByIdFacts(actions);
    OrderInKeys(byId);
    var order := ExecutionOrder(g);
    assert order[i] in order && a == byId[order[i]];
    assert g[a.id] == {};
    SourceKey(g, a.id);
  }

  // Four actions that come back as a, b, z, y: when b is done both y and z can run, and z, which a
  // released, is returned before y.
  lemma TieBreakCanFail(actions: seq<Action>)
    requires CrossingActions(actions)
    ensures TopologicalResult(actions).Scheduled?
    ensures Ids(TopologicalResult(actions).order) == ["a", "b", "z", "y"]
    ensures DependenciesFirst(GraphOf(ById(actions)), Ids(TopologicalResult(actions).order))
    ensures !TiesBreakById(GraphOf(ById(actions)), Ids(TopologicalResult(actions).order))
  {
    CrossingEntries(actions);
    CrossingGraph(ById(actions));
    CrossingOrder();
    ResultFromGraph(actions);
    CrossingSize();
  }

  lemma CrossingSize()
    ensures |CROSSING.Keys| == 4
  {
    assert CROSSING.Keys == {"a", "b", "z", "y"};
  }

  ghost predicate CrossingActions(actions: seq<Action>)
  {
    && |actions| == 4
    && actions[0].id == "a" && actions[0].dependsOn == []
    && actions[1].id == "b" && actions[1].dependsOn == []
    && actions[2].id == "z" && actions[2].dependsOn == ["a"]
    && actions[3].id == "y" && actions[3].dependsOn == ["b"]
  }

  ghost predicate CrossingIndex(m: map<string, Action>)
  {
    && m.Keys == {"a", "b", "z", "y"}
    && m["a"].dependsOn == [] && m["b"].dependsOn == []
    && m["z"].dependsOn == ["a"] && m["y"].dependsOn == ["b"]
  }

  lemma CrossingEntries(actions: seq<Action>)
    requires CrossingActions(actions)
    ensures CrossingIndex(ById(actions))
  {
    ByIdEntries(actions);
    assert Ids(actions) == ["a", "b", "z", "y"];
    assert Distinct(Ids(actions));
    forall i | 0 <= i < 4 ensures actions[i].id in ById(actions) && ById(actions)[actions[i].id] == actions[i] {
      ByIdOfMember(actions, actions[i]);
    }
    assert Elems(["a", "b", "z", "y"]) == {"a", "b", "z", "y"};
  }

  lemma CrossingGraph(m: map<string, Action>)
    requires CrossingIndex(m)
    ensures GraphOf(m) == CROSSING
  {
    assert Inside([], m.Keys) == {} && Inside(["a"], m.Keys) == {"a"} && Inside(["b"], m.Keys) == {"b"};
    assert CROSSING.Keys == m.Keys;
  }

  lemma SameIndex(a: seq<Action>, b: seq<Action>)
    requires multiset(a) == multiset(b) && Distinct(Ids(a)) && Distinct(Ids(b))
    ensures ById(a) == ById(b)
  {
    ByIdFacts(a);
    ByIdFacts(b);
    SameElements(a, b);
    forall id | id in ById(a) ensures id in ById(b) && ById(b)[id] == ById(a)[id] {
      assert ById(a)[id] in Elems(b);
    }
    forall id | id in ById(b) ensures id in ById(a) {
      assert ById(b)[id] in Elems(a);
    }
  }

  // Permuting distinct actions never changes the result.
  lemma PermutationInvariant(a: seq<Action>, b: seq<Action>)
    requires multiset(a) == multiset(b) && Distinct(Ids(a)) && Distinct(Ids(b))
    ensures TopologicalResult(a) == TopologicalResult(b)
  {
    SameIndex(a, b);
  }

  // The result as a function of the dependency graph.
  lemma ResultFromGraph(actions: seq<Action>)
    ensures var order := ExecutionOrder(GraphOf(ById(actions)));
            var keys := GraphOf(ById(actions)).Keys;
            && (TopologicalResult(actions).Scheduled? <==> |order| == |keys|)
            && (TopologicalResult(actions).Scheduled? ==> Ids(TopologicalResult(actions).order) == order)
            && (TopologicalResult(actions).CycleError? ==> TopologicalResult(actions).ids == SortedSet(keys))
  {
    var byId := ById(actions);
    assert GraphOf(byId).Keys == byId.Keys;
    OrderInKeys(byId);
    ByIdFacts(actions);
    var order := ExecutionOrder(GraphOf(byId));
    assert Ids(Select(byId, order)) == order;
  }

  ghost predicate SameUpToDependencyLists(a: seq<Action>, b: seq<Action>)
  {
    && |a| == |b|
    && forall i :: 0 <= i < |a| ==> a[i].id == b[i].id && Elems(a[i].dependsOn) == Elems(b[i].dependsOn)
  }

  // Reordering or repeating entries inside depends_on never changes the order either.
  lemma DependencyListInvariant(a: seq<Action>, b: seq<Action>)
    requires SameUpToDependencyLists(a, b)
    ensures TopologicalResult(a).Scheduled? <==> TopologicalResult(b).Scheduled?
    ensures TopologicalResult(a).Scheduled? ==> Ids(TopologicalResult(a).order) == Ids(TopologicalResult(b).order)
    ensures TopologicalResult(a).CycleError? ==> TopologicalResult(a) == TopologicalResult(b)
  {
    SameGraph(a, b);
    ResultFromGraph(a);
    ResultFromGraph(b);
  }

  lemma {:induction false} SameGraph(a: seq<Action>, b: seq<Action>)
    requires SameUpToDependencyLists(a, b)
    ensures GraphOf(ById(a)) == GraphOf(ById(b))
  {
    SameDependencySets(a, b);
    var ga, gb := GraphOf(ById(a)), GraphOf(ById(b));
    assert ga.Keys == gb.Keys;
    forall id | id in ga ensures ga[id] == gb[id] {
      assert Elems(ById(a)[id].dependsOn) == Elems(ById(b)[id].dependsOn);
      assert forall d :: d in ById(a)[id].dependsOn <==> d in Elems(ById(a)[id].dependsOn);
      assert forall d :: d in ById(b)[id].dependsOn <==> d in Elems(ById(b)[id].dependsOn);
    }
  }

  lemma {:induction false} SameDependencySets(a: seq<Action>, b: seq<Action>)
    requires SameUpToDependencyLists(a, b)
    ensures ById(a).Keys == ById(b).Keys
    ensures forall id :: id in ById(a) ==> Elems(ById(a)[id].dependsOn) == Elems(ById(b)[id].dependsOn)
  {
    if a != [] {
      SameDependencySets(a[..|a| - 1], b[..|b| - 1]);
    }
  }
}
