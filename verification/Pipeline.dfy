// Producer to consumers: the manifests Build emits, as topological_order and build_graph see them.

module Pipeline {
  import opened Order
  import opened Graph
  import opened Manifest
  import opened Registry
  import opened Builder
  import opened Schema
  import opened Text
  import opened Ordering
  import opened LangGraph

  // Which tools of a batch must precede which, by tool ID.
  ghost function ToolGraph(ts: seq<Tool>): Graph
    requires Distinct(ToolIds(ts))
  {
    map id | id in Elems(ToolIds(ts)) :: NeededIds(ts, id)
  }

  ghost function NeededIds(ts: seq<Tool>, id: string): set<string>
  {
    set t, u | t in ts && u in ts && t.id == id && u.id != id && Needs(t, u) :: u.id
  }

  lemma IdsOfActions(ts: seq<Tool>)
    ensures Ids(ActionsFor(ts)) == seq(|ts|, i requires 0 <= i < |ts| => ActionId(i))
    ensures Distinct(Ids(ActionsFor(ts)))
  {
    var ids := Ids(ActionsFor(ts));
    forall i, j | 0 <= i < j < |ids| ensures ids[i] != ids[j] {
      if ids[i] == ids[j] { ActionIdInjective(i, j); }
    }
  }

  // Action j is listed in action i's depends_on exactly when they differ and tool i names,
  // ignoring case, a capability tool j carries.
  lemma DependsOnExact(ts: seq<Tool>, i: nat, j: nat)
    requires i < |ts| && j < |ts|
    ensures ActionsFor(ts)[j].id in ActionsFor(ts)[i].dependsOn <==> i != j && Needs(ts[i], ts[j])
    ensures Needs(ts[i], ts[j]) <==>
            exists c, k :: c in ts[i].dependsOnCaps && k in ts[j].capabilities && SameIgnoringCase(c, k)
  {
    NeedsIgnoresCase(ts[i], ts[j]);
    var deps := DependencyIds(ts, i);
    SortedSetIsSorted(deps);
    assert ActionId(j) in SortedSet(deps) <==> ActionId(j) in Elems(SortedSet(deps));
    if ActionId(j) in deps {
      var k: nat :| k < |ts| && k != i && Needs(ts[i], ts[k]) && ActionId(k) == ActionId(j);
      ActionIdInjective(j, k);
    }
  }

  // Dependencies of a built manifest never leave it, and come sorted without repetition.
  lemma DependenciesInside(ts: seq<Tool>, i: nat)
    requires i < |ts|
    ensures Elems(ActionsFor(ts)[i].dependsOn) <= Elems(Ids(ActionsFor(ts)))
    ensures Ascending(ActionsFor(ts)[i].dependsOn)
  {
    var deps := DependencyIds(ts, i);
    SortedSetIsSorted(deps);
    IdsOfActions(ts);
    forall d | d in deps ensures d in Elems(Ids(ActionsFor(ts))) {
      var j: nat :| j < |ts| && j != i && Needs(ts[i], ts[j]) && ActionId(j) == d;
      assert Ids(ActionsFor(ts))[j] == d;
    }
  }

  lemma ActionGraphEdge(ts: seq<Tool>, i: nat, j: nat)
    requires i < |ts| && j < |ts|
    ensures ActionId(i) in GraphOf(ById(ActionsFor(ts)))
    ensures ActionId(j) in GraphOf(ById(ActionsFor(ts)))[ActionId(i)] <==> i != j && Needs(ts[i], ts[j])
  {
    var actions := ActionsFor(ts);
    IdsOfActions(ts);
    ByIdFacts(actions);
    assert Ids(actions)[i] == ActionId(i) && Ids(actions)[j] == ActionId(j);
    assert actions[i] in actions && ById(actions)[ActionId(i)] == actions[i];
    DependsOnExact(ts, i, j);
  }

  lemma SameIdSameTool(ts: seq<Tool>, t: Tool, i: nat)
    requires Distinct(ToolIds(ts)) && i < |ts| && t in ts && t.id == ts[i].id
    ensures t == ts[i]
  {
    var k :| 0 <= k < |ts| && ts[k] == t;
    assert ToolIds(ts)[k] == ToolIds(ts)[i];
  }

  lemma ToolGraphEdge(ts: seq<Tool>, i: nat, j: nat)
    requires Distinct(ToolIds(ts)) && i < |ts| && j < |ts|
    ensures ts[i].id in ToolGraph(ts)
    ensures ts[j].id in ToolGraph(ts)[ts[i].id] <==> i != j && Needs(ts[i], ts[j])
  {
    assert ToolIds(ts)[i] == ts[i].id && ToolIds(ts)[j] == ts[j].id;
    if ts[j].id in NeededIds(ts, ts[i].id) {
      var t, u :| t in ts && u in ts && t.id == ts[i].id && u.id != t.id && Needs(t, u) && u.id == ts[j].id;
      SameIdSameTool(ts, t, i);
      SameIdSameTool(ts, u, j);
    }
    if i != j && Needs(ts[i], ts[j]) {
      assert ts[i] in ts && ts[j] in ts;
    }
  }

  ghost function ActionIndex(ts: seq<Tool>, id: string): (i: nat)
    requires id in Ids(ActionsFor(ts))
    ensures i < |ts| && ActionId(i) == id
  {
    var i: nat :| i < |ts| && Ids(ActionsFor(ts))[i] == id;
    i
  }

  ghost function ToolIndex(ts: seq<Tool>, id: string): (i: nat)
    requires id in ToolIds(ts)
    ensures i < |ts| && ts[i].id == id
  {
    var i: nat :| i < |ts| && ToolIds(ts)[i] == id;
    i
  }

  lemma ActionsToTools(ts: seq<Tool>) returns (f: map<string, string>)
    requires Distinct(ToolIds(ts))
    ensures Maps(f, GraphOf(ById(ActionsFor(ts))), ToolGraph(ts))
  {
    var actions := ActionsFor(ts);
    var g, h := GraphOf(ById(actions)), ToolGraph(ts);
    ByIdFacts(actions);
    assert g.Keys == Elems(Ids(actions));
    f := map id | id in g :: ts[ActionIndex(ts, id)].id;
    forall v | v in g ensures f[v] in h {
      ToolGraphEdge(ts, ActionIndex(ts, v), ActionIndex(ts, v));
    }
    forall v, d | v in g && d in g && d in g[v] ensures f[d] in h[f[v]] {
      ActionGraphEdge(ts, ActionIndex(ts, v), ActionIndex(ts, d));
      ToolGraphEdge(ts, ActionIndex(ts, v), ActionIndex(ts, d));
    }
  }

  lemma ToolsToActions(ts: seq<Tool>) returns (f: map<string, string>)
    requires Distinct(ToolIds(ts))
    ensures Maps(f, ToolGraph(ts), GraphOf(ById(ActionsFor(ts))))
  {
    var g, h := ToolGraph(ts), GraphOf(ById(ActionsFor(ts)));
    assert g.Keys == Elems(ToolIds(ts));
    f := map id | id in g :: ActionId(ToolIndex(ts, id));
    forall v | v in g ensures f[v] in h {
      ActionGraphEdge(ts, ToolIndex(ts, v), ToolIndex(ts, v));
    }
    forall v, d | v in g && d in g && d in g[v] ensures f[d] in h[f[v]] {
      ToolGraphEdge(ts, ToolIndex(ts, v), ToolIndex(ts, d));
      ActionGraphEdge(ts, ToolIndex(ts, v), ToolIndex(ts, d));
    }
  }

  // Each looked-up tool gets one action, in order, that calls it as registered.
  lemma BuiltActions(tools: ToolMap, caps: seq<string>, opts: Options, newId: string, i: nat)
    requires BuildFor(tools, caps, opts, newId).Built?
    ensures |BuildFor(tools, caps, opts, newId).manifest.actions| == |LookupResult(tools, caps)|
    ensures i < |LookupResult(tools, caps)| ==>
              var a, t := BuildFor(tools, caps, opts, newId).manifest.actions[i], LookupResult(tools, caps)[i];
              && a.id == "a" + Decimal(i + 1)
              && a.typ == t.typ && a.verb == t.verb && a.endpoint == t.endpoint
              && a.schema == t.schema && a.auth == t.auth && a.timeout == t.timeout
  {
  }

  // The rest of the manifest is as configured.
  lemma BuiltSettings(tools: ToolMap, caps: seq<string>, opts: Options, newId: string)
    ensures BuildFor(tools, caps, opts, newId).Built? <==> LookupResult(tools, caps) != []
    ensures BuildFor(tools, caps, opts, newId).Built? ==>
              var m := BuildFor(tools, caps, opts, newId).manifest;
              && m.manifestId == newId && m.version == "acp/v1" && m.ttl == opts.ttl
              && m.feedbackEndpoint == opts.feedbackEndpoint
              && m.boundaries.maxTokensPerAction == opts.maxTokensPerAction
              && m.boundaries.auditLevel == opts.auditLevel
              && Ascending(m.boundaries.egress)
  {
    SortedSetIsSorted(EgressOf(LookupResult(tools, caps)));
  }

  // What an adapter shows of an action's parameter is what its tool declared: the type of a scalar
  // or of an array of them, and whether it is required.
  lemma AdapterShowsTool(tools: ToolMap, caps: seq<string>, opts: Options, newId: string, i: nat,
                         js: JsonSchema, name: string)
    requires BuildFor(tools, caps, opts, newId).Built? && i < |LookupResult(tools, caps)|
    requires LookupResult(tools, caps)[i].schema == CompactSchemaOf(js)
    requires name in js.props && ScalarTree(js.props[name])
    ensures i < |BuildFor(tools, caps, opts, newId).manifest.actions|
    ensures var schema := BuildFor(tools, caps, opts, newId).manifest.actions[i].schema;
            && name in schema && Core(ExpandPy(schema[name])) == Declared(js.props[name])
            && (name in RequiredNames(schema) <==> name in js.required)
  {
    BuiltActions(tools, caps, opts, newId, i);
    AdapterShowsDeclared(js, name);
    ImportedSchemaShown(js, LookupResult(tools, caps)[i], name);
  }

  // A built manifest can be scheduled exactly when its tools' needs are acyclic.
  lemma SchedulableIffNeedsAcyclic(tools: ToolMap, caps: seq<string>, opts: Options, newId: string)
    requires WellKeyed(tools) && BuildFor(tools, caps, opts, newId).Built?
    ensures var ts := LookupResult(tools, caps);
            && Distinct(ToolIds(ts))
            && (TopologicalResult(BuildFor(tools, caps, opts, newId).manifest.actions).Scheduled? <==>
                Acyclic(ToolGraph(ts)))
  {
    var ts := LookupResult(tools, caps);
    SelectSortedFacts(tools, MatchingIds(tools, NormSet(caps)));
    AscendingIsDistinct(ToolIds(ts));
    var f := ActionsToTools(ts);
    var b := ToolsToActions(ts);
    var g, h := GraphOf(ById(ActionsFor(ts))), ToolGraph(ts);
    if Acyclic(h) { AcyclicAlong(f, g, h); }
    if Acyclic(g) { AcyclicAlong(b, h, g); }
    ReturnsIffAcyclic(ActionsFor(ts));
  }

  lemma MemberId(actions: seq<Action>, a: Action)
    requires a in actions
    ensures a.id in Elems(Ids(actions))
  {
    var k :| 0 <= k < |actions| && actions[k] == a;
    assert Ids(actions)[k] == a.id;
  }

  lemma BuiltIsAnchored(ts: seq<Tool>, id: string)
    requires id in Elems(Ids(ActionsFor(ts)))
    ensures Anchored(ActionsFor(ts), id)
  {
    var actions := ActionsFor(ts);
    IdsOfActions(ts);
    ByIdFacts(actions);
    MergedContains(actions);
    var b := ById(actions)[id];
    var i :| 0 <= i < |actions| && actions[i] == b;
    DependenciesInside(ts, i);
    if b.dependsOn != [] {
      var d := b.dependsOn[0];
      assert d in Elems(b.dependsOn);
      assert d in Merged(actions)[id];
    }
  }

  // Any schedulable manifest from Build becomes a graph that leads from START through every
  // action to END.
  lemma BuiltGraphIsThreaded(tools: ToolMap, caps: seq<string>, opts: Options, newId: string, a: Action)
    requires BuildFor(tools, caps, opts, newId).Built?
    requires TopologicalResult(BuildFor(tools, caps, opts, newId).manifest.actions).Scheduled?
    requires a in BuildFor(tools, caps, opts, newId).manifest.actions
    ensures Threaded(BuildFor(tools, caps, opts, newId).manifest.actions, a.id)
  {
    var ts := LookupResult(tools, caps);
    var actions := ActionsFor(ts);
    IdsOfActions(ts);
    ByIdFacts(actions);
    MergedContains(actions);
    ReturnsIffAcyclic(actions);
    forall id | id in Elems(Ids(actions)) ensures Anchored(actions, id) {
      BuiltIsAnchored(ts, id);
    }
    MemberId(actions, a);
    ThreadedIffAnchored(actions);
  }
}
