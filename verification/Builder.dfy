// internal/builder: from looked-up tools to an execution manifest.

module Builder {
  import opened Order
  import opened Text
  import opened Manifest
  import opened Registry

  datatype Options = Options(ttl: string, feedbackEndpoint: string, maxTokensPerAction: int, auditLevel: string)

  datatype BuildResult = Built(manifest: ExecutionManifest) | NoMatchingTools

  function ActionId(i: nat): string
  {
    "a" + Decimal(i + 1)
  }

  lemma ActionIdInjective(i: nat, j: nat)
    requires ActionId(i) == ActionId(j)
    ensures i == j
  {
    assert ActionId(i)[1..] == Decimal(i + 1) && ActionId(j)[1..] == Decimal(j + 1);
    DecimalInjective(i + 1, j + 1);
  }

  predicate Tagged(t: Tool, cap: string)
  {
    exists k :: k in t.capabilities && Lower(k) == cap
  }

  // Ignoring case, t names a capability that u carries.
  predicate Needs(t: Tool, u: Tool)
  {
    exists c :: c in t.dependsOnCaps && Tagged(u, Lower(c))
  }

  // That is, some tag named is some tag carried, letter by letter and ignoring case.
  lemma NeedsIgnoresCase(t: Tool, u: Tool)
    ensures Needs(t, u) <==> exists c, k :: c in t.dependsOnCaps && k in u.capabilities && SameIgnoringCase(c, k)
  {
    if Needs(t, u) {
      var c :| c in t.dependsOnCaps && Tagged(u, Lower(c));
      var k :| k in u.capabilities && Lower(k) == Lower(c);
      LowerIgnoresCase(c, k);
    }
    if c, k :| c in t.dependsOnCaps && k in u.capabilities && SameIgnoringCase(c, k) {
      LowerIgnoresCase(c, k);
      assert Tagged(u, Lower(c));
    }
  }

  ghost function DependencyIds(ts: seq<Tool>, i: nat): set<string>
    requires i < |ts|
  {
    set j: nat | j < |ts| && j != i && Needs(ts[i], ts[j]) :: ActionId(j)
  }

  ghost function ActionFor(ts: seq<Tool>, i: nat): Action
    requires i < |ts|
  {
    var t := ts[i];
    Action(ActionId(i), t.typ, t.endpoint, t.verb, t.schema, t.auth, t.timeout, SortedSet(DependencyIds(ts, i)))
  }

  ghost function ActionsFor(ts: seq<Tool>): seq<Action>
  {
    seq(|ts|, i requires 0 <= i < |ts| => ActionFor(ts, i))
  }

  ghost function EgressOf(ts: seq<Tool>): set<string>
  {
    set t, h | t in ts && h in t.egress :: h
  }

  function Approvals(ts: seq<Tool>): seq<string>
  {
    if ts == [] then [] else
      var i := |ts| - 1;
      Approvals(ts[..i]) + if ts[i].requireApproval then [ActionId(i)] else []
  }

  const PROTOCOL_VERSION := "acp/v1"

  ghost function ManifestFor(ts: seq<Tool>, opts: Options, newId: string): ExecutionManifest
  {
    ExecutionManifest(newId, PROTOCOL_VERSION, opts.ttl, ActionsFor(ts),
      Boundary(SortedSet(EgressOf(ts)), opts.maxTokensPerAction, Approvals(ts), opts.auditLevel),
      opts.feedbackEndpoint)
  }

  ghost function BuildFor(tools: ToolMap, caps: seq<string>, opts: Options, newId: string): BuildResult
  {
    var ts := LookupResult(tools, caps);
    if ts == [] then NoMatchingTools else Built(ManifestFor(ts, opts, newId))
  }

  function At(available: map<string, seq<string>>, cap: string): seq<string>
  {
    if cap in available then available[cap] else []
  }

  ghost function Providers(ts: seq<Tool>, n: nat, cap: string): set<string>
    requires n <= |ts|
  {
    set j: nat | j < n && Tagged(ts[j], cap) :: ActionId(j)
  }

  ghost predicate Indexed(available: map<string, seq<string>>, ts: seq<Tool>, n: nat)
    requires n <= |ts|
  {
    forall cap :: Elems(At(available, cap)) == Providers(ts, n, cap)
  }

  // ---- Build ------------------------------------------------------------------------

  method Build(reg: MemoryRegistry, caps: seq<string>, opts: Options, newId: string) returns (r: BuildResult)
    requires reg.Valid()
    ensures r == BuildFor(reg.tools, caps, opts, newId)
  {
    var tools := reg.Lookup(caps);
    if |tools| == 0 {
      return NoMatchingTools;
    }
    IdLeIsTotalPreorder();
    ghost var found := tools;
    tools := SortSlice(tools, IdLe);
    Resorted(reg.tools, caps, tools);
    var m := Assemble(tools, opts, newId);
    return Built(m);
  }

  // The registry already orders its answer, so the defensive sort changes nothing.
  lemma Resorted(tools: ToolMap, caps: seq<string>, sorted: seq<Tool>)
    requires WellKeyed(tools)
    requires SortedBy(sorted, IdLe) && multiset(sorted) == multiset(LookupResult(tools, caps))
    ensures sorted == LookupResult(tools, caps)
  {
    var found := LookupResult(tools, caps);
    var ids := MatchingIds(tools, NormSet(caps));
    SelectSortedFacts(tools, ids);
    SortedSetIsSorted(ids);
    AscendingIsDistinct(ToolIds(found));
    assert Batch(tools, found);
    SortedBatch(tools, found, sorted);
  }

  method Assemble(ts: seq<Tool>, opts: Options, newId: string) returns (m: ExecutionManifest)
    ensures m == ManifestFor(ts, opts, newId)
  {
    var available := IndexCapabilities(ts);
    var actions: seq<Action> := [];
    var egressSet: set<string> := {};
    var approvals: seq<string> := [];
    for i := 0 to |ts|
      invariant |actions| == i && forall k :: 0 <= k < i ==> actions[k] == ActionFor(ts, k)
      invariant egressSet == EgressOf(ts[..i])
      invariant approvals == Approvals(ts[..i])
    {
      var t := ts[i];
      var dep := DependsOnFor(ActionId(i), t, available);
      OwnDependencies(ts, i, available);
      actions := actions + [Action(ActionId(i), t.typ, t.endpoint, t.verb, t.schema, t.auth, t.timeout, dep)];
      egressSet := egressSet + Elems(t.egress);
      EgressStep(ts, i);
      assert ts[..i + 1][..i] == ts[..i];
      if t.requireApproval {
        approvals := approvals + [ActionId(i)];
      }
    }
    assert ts[..|ts|] == ts;
    assert actions == ActionsFor(ts);
    var egress := SortedKeys(egressSet);
    m := ExecutionManifest(newId, PROTOCOL_VERSION, opts.ttl, actions,
      Boundary(egress, opts.maxTokensPerAction, approvals, opts.auditLevel), opts.feedbackEndpoint);
  }

  lemma EgressStep(ts: seq<Tool>, i: nat)
    requires i < |ts|
    ensures EgressOf(ts[..i + 1]) == EgressOf(ts[..i]) + Elems(ts[i].egress)
  {
    assert ts[..i + 1] == ts[..i] + [ts[i]];
    forall h | h in EgressOf(ts[..i]) + Elems(ts[i].egress) ensures h in EgressOf(ts[..i + 1]) {
      if h in Elems(ts[i].egress) {
        assert ts[i] in ts[..i + 1];
      } else {
        var t :| t in ts[..i] && h in t.egress;
        assert t in ts[..i + 1];
      }
    }
  }

  method IndexCapabilities(ts: seq<Tool>) returns (available: map<string, seq<string>>)
    ensures Indexed(available, ts, |ts|)
  {
    available := map[];
    for i := 0 to |ts|
      invariant Indexed(available, ts, i)
    {
      ghost var before := available;
      available := AddProvider(available, ActionId(i), ts[i].capabilities);
      forall cap ensures Elems(At(available, cap)) == Providers(ts, i + 1, cap) {
        assert Elems(At(before, cap)) == Providers(ts, i, cap);
        ProviderStep(ts, i, cap);
      }
    }
  }

  lemma ProviderStep(ts: seq<Tool>, i: nat, cap: string)
    requires i < |ts|
    ensures Providers(ts, i + 1, cap) == Providers(ts, i, cap) + if Tagged(ts[i], cap) then {ActionId(i)} else {}
  {
  }

  ghost predicate TaggedBy(caps: seq<string>, cap: string)
  {
    exists k :: k in caps && Lower(k) == cap
  }

  method AddProvider(available0: map<string, seq<string>>, id: string, caps: seq<string>)
    returns (available: map<string, seq<string>>)
    ensures forall cap :: Elems(At(available, cap)) ==
              Elems(At(available0, cap)) + if TaggedBy(caps, cap) then {id} else {}
  {
    available := available0;
    for k := 0 to |caps|
      invariant forall cap :: Elems(At(available, cap)) ==
                  Elems(At(available0, cap)) + if TaggedBy(caps[..k], cap) then {id} else {}
    {
      var c := Lower(caps[k]);
      ghost var before := available;
      available := available[c := At(available, c) + [id]];
      assert caps[..k + 1] == caps[..k] + [caps[k]];
      forall cap ensures Elems(At(available, cap)) ==
                         Elems(At(available0, cap)) + if TaggedBy(caps[..k + 1], cap) then {id} else {} {
        assert Elems(At(available, cap)) == Elems(At(before, cap)) + if cap == c then {id} else {};
        assert TaggedBy(caps[..k + 1], cap) <==> TaggedBy(caps[..k], cap) || cap == c;
      }
    }
    assert caps[..|caps|] == caps;
  }

  ghost function Gathered(available: map<string, seq<string>>, caps: seq<string>): set<string>
  {
    set c, id | c in caps && id in At(available, Lower(c)) :: id
  }

  method DependsOnFor(selfId: string, t: Tool, available: map<string, seq<string>>) returns (out: seq<string>)
    ensures out == SortedSet(Gathered(available, t.dependsOnCaps) - {selfId})
  {
    var seen: set<string> := {};
    for k := 0 to |t.dependsOnCaps|
      invariant seen == Gathered(available, t.dependsOnCaps[..k]) - {selfId}
    {
      var ids := At(available, Lower(t.dependsOnCaps[k]));
      ghost var before := seen;
      for m := 0 to |ids|
        invariant seen == before + (Elems(ids[..m]) - {selfId})
      {
        assert ids[..m + 1] == ids[..m] + [ids[m]];
        if ids[m] != selfId {
          seen := seen + {ids[m]};
        }
      }
      assert ids[..|ids|] == ids;
      GatherStep(available, t.dependsOnCaps, k);
    }
    assert t.dependsOnCaps[..|t.dependsOnCaps|] == t.dependsOnCaps;
    out := SortedKeys(seen);
  }

  lemma GatherStep(available: map<string, seq<string>>, caps: seq<string>, k: nat)
    requires k < |caps|
    ensures Gathered(available, caps[..k + 1]) == Gathered(available, caps[..k]) + Elems(At(available, Lower(caps[k])))
  {
    assert caps[..k + 1] == caps[..k] + [caps[k]];
    forall id | id in Gathered(available, caps[..k]) + Elems(At(available, Lower(caps[k])))
      ensures id in Gathered(available, caps[..k + 1]) {
      if id in Elems(At(available, Lower(caps[k]))) {
        assert caps[k] in caps[..k + 1];
      } else {
        var c :| c in caps[..k] && id in At(available, Lower(c));
        assert c in caps[..k + 1];
      }
    }
  }

  lemma OwnDependencies(ts: seq<Tool>, i: nat, available: map<string, seq<string>>)
    requires i < |ts| && Indexed(available, ts, |ts|)
    ensures Gathered(available, ts[i].dependsOnCaps) - {ActionId(i)} == DependencyIds(ts, i)
  {
    forall id ensures id in Gathered(available, ts[i].dependsOnCaps) - {ActionId(i)} <==> id in DependencyIds(ts, i) {
      if id in Gathered(available, ts[i].dependsOnCaps) && id != ActionId(i) {
        var c :| c in ts[i].dependsOnCaps && id in At(available, Lower(c));
        assert id in Elems(At(available, Lower(c)));
        var j: nat :| j < |ts| && Tagged(ts[j], Lower(c)) && id == ActionId(j);
        assert Needs(ts[i], ts[j]);
      }
      if id in DependencyIds(ts, i) {
        var j: nat :| j < |ts| && j != i && Needs(ts[i], ts[j]) && id == ActionId(j);
        var c :| c in ts[i].dependsOnCaps && Tagged(ts[j], Lower(c));
        assert id in Elems(At(available, Lower(c)));
        if id == ActionId(i) { ActionIdInjective(i, j); }
      }
    }
  }
}
