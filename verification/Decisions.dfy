// What the server answers, request by request: when a context or an execution is refused, and that
// a manifest once emitted can be executed.

module Decisions {
  import opened Text
  import opened Manifest
  import opened Registry
  import opened Seed
  import opened Builder
  import opened Gateway

  // ---- Context ----------------------------------------------------------------------

  ghost predicate Provides(t: Tool, caps: seq<string>)
  {
    exists c, w :: c in t.capabilities && w in caps && Norm(w) != "" && Lower(c) == Norm(w)
  }

  // A registered tool carries one of the capabilities, ignoring case and outer white space.
  ghost predicate Provided(tools: ToolMap, caps: seq<string>)
  {
    exists id :: id in tools && Provides(tools[id], caps)
  }

  // A context is refused for a blank request, then for a blank agent, then when nothing resolves,
  // then when no tool matches; otherwise a manifest with the new ID is emitted.
  lemma ContextDecided(tools: ToolMap, req: ContextRequest, resolved: Option<seq<string>>, opts: Options, newId: string)
    requires WellKeyed(tools)
    ensures var r := ContextFor(tools, req, resolved, opts, newId);
            var bad := AllSpace(req.intent) && req.capabilities == [];
            && (r == BadContext("intent or capabilities required") <==> bad)
            && (r == BadContext("agent_id is required") <==> !bad && AllSpace(req.agentId))
            && (r == Unresolved <==> !bad && !AllSpace(req.agentId) && resolved.None?)
            && (r == NoTools <==> !bad && !AllSpace(req.agentId) && resolved.Some? && !Provided(tools, resolved.value))
            && (r.Emitted? <==> !bad && !AllSpace(req.agentId) && resolved.Some? && Provided(tools, resolved.value))
            && (r.Emitted? ==> r.m.manifestId == newId)
  {
    var lead, trail := TrimStrips(req.intent);
    lead, trail := TrimStrips(req.agentId);
    assert "intent or capabilities required"[0] != "agent_id is required"[0];
    if resolved.Some? {
      ProvidedIffFound(tools, resolved.value);
    }
  }

  lemma ProvidedIffFound(tools: ToolMap, caps: seq<string>)
    requires WellKeyed(tools)
    ensures Provided(tools, caps) <==> LookupResult(tools, caps) != []
  {
    LookupExact(tools, caps);
    if LookupResult(tools, caps) != [] {
      var t := LookupResult(tools, caps)[0];
      assert t in LookupResult(tools, caps);
    }
    if Provided(tools, caps) {
      var id :| id in tools && Provides(tools[id], caps);
      assert tools[id] in LookupResult(tools, caps);
    }
  }

  // ---- Execution --------------------------------------------------------------------

  // The path names a manifest and an action; anything may follow after another slash.
  ghost predicate NamesAction(path: string, manifestId: string, actionId: string)
  {
    && manifestId != "" && actionId != "" && '/' !in manifestId && '/' !in actionId
    && var start := "/v1/exec/" + manifestId + "/" + actionId;
       start <= path && (start == path || path[|start|] == '/')
  }

  // The first action with the id.
  ghost predicate Finds(m: ExecutionManifest, actionId: string, a: Action)
  {
    exists i :: 0 <= i < |m.actions| && m.actions[i] == a && a.id == actionId &&
                forall k :: 0 <= k < i ==> m.actions[k].id != actionId
  }

  lemma {:induction false} FirstActionIff(actions: seq<Action>, id: string, a: Action)
    ensures FirstAction(actions, id) == Some(a) <==>
            exists i :: 0 <= i < |actions| && actions[i] == a && a.id == id &&
                        forall k :: 0 <= k < i ==> actions[k].id != id
  {
    if actions != [] && actions[0].id != id {
      var rest := actions[1..];
      FirstActionIff(rest, id, a);
      if i :| 0 <= i < |rest| && rest[i] == a && a.id == id && forall k :: 0 <= k < i ==> rest[k].id != id {
        assert actions[i + 1] == a;
        forall k | 0 <= k < i + 1 ensures actions[k].id != id {
          if k > 0 { assert rest[k - 1] == actions[k]; }
        }
      }
      if i :| 0 <= i < |actions| && actions[i] == a && a.id == id && forall k :: 0 <= k < i ==> actions[k].id != id {
        assert rest[i - 1] == a;
        forall k | 0 <= k < i - 1 ensures rest[k].id != id {
          assert actions[k + 1] == rest[k];
        }
      }
    }
  }

  // A path is split exactly when it names a manifest and an action.
  lemma SplitIffNamed(rest: string, manifestId: string, actionId: string)
    ensures SplitExecPath(rest) == Some((manifestId, actionId)) <==>
            NamesAction("/v1/exec/" + rest, manifestId, actionId)
  {
    if SplitExecPath(rest) == Some((manifestId, actionId)) {
      SplitNames(rest, manifestId, actionId);
    }
    if NamesAction("/v1/exec/" + rest, manifestId, actionId) {
      NamedSplits(rest, manifestId, actionId);
    }
  }

  lemma SplitNames(rest: string, manifestId: string, actionId: string)
    requires SplitExecPath(rest) == Some((manifestId, actionId))
    ensures NamesAction("/v1/exec/" + rest, manifestId, actionId)
  {
    var parts := Split(rest, '/');
    SplitPartsArePlain(rest, '/');
    JoinSplit(rest, '/');
    var more := Join(parts[1..], '/');
    assert rest == manifestId + ['/'] + more;
    var tail := if |parts| == 2 then "" else ['/'] + Join(parts[2..], '/');
    assert more == actionId + tail by {
      assert parts[1..][1..] == parts[2..];
      if |parts| == 2 { assert parts[1..] == [actionId]; }
    }
    var start := "/v1/exec/" + manifestId + "/" + actionId;
    assert "/v1/exec/" + rest == start + tail;
    assert parts[0] in parts && parts[1] in parts;
  }

  lemma NamedSplits(rest: string, manifestId: string, actionId: string)
    requires NamesAction("/v1/exec/" + rest, manifestId, actionId)
    ensures SplitExecPath(rest) == Some((manifestId, actionId))
  {
    var path, start := "/v1/exec/" + rest, "/v1/exec/" + manifestId + "/" + actionId;
    var named := manifestId + ['/'] + actionId;
    assert start == "/v1/exec/" + named;
    assert rest == path[|"/v1/exec/"|..];
    assert named <= rest;
    var tail := rest[|named|..];
    assert rest == manifestId + ['/'] + (actionId + tail);
    SplitAfter(manifestId, '/', actionId + tail);
    if tail == "" {
      assert actionId + tail == actionId;
      SplitPlain(actionId, '/');
    } else {
      assert rest[|named|] == path[|start|];
      assert actionId + tail == actionId + ['/'] + tail[1..];
      SplitAfter(actionId, '/', tail[1..]);
    }
  }

  // Paths elsewhere are not found; those that name no manifest and action are bad.
  lemma PathDecided(store: Store, path: string, hosts: string -> Option<string>,
                    approved: set<(string, string)>, injected: bool)
    ensures var r := Decide(store, path, hosts, approved, injected);
            && (r.NotFound? <==> !("/v1/exec/" <= path))
            && (r.BadPath? <==> "/v1/exec/" <= path && !exists m, a :: NamesAction(path, m, a))
  {
    if "/v1/exec/" <= path {
      var rest := path[|EXEC_PATH_PREFIX|..];
      assert path == "/v1/exec/" + rest;
      forall m, a ensures NamesAction(path, m, a) <==> SplitExecPath(rest) == Some((m, a)) {
        SplitIffNamed(rest, m, a);
      }
      if SplitExecPath(rest).Some? {
        var (m, a) := SplitExecPath(rest).value;
        assert NamesAction(path, m, a);
      }
    }
  }

  // A path that names both is refused for a missing manifest, then for a missing action.
  lemma TargetDecided(store: Store, path: string, manifestId: string, actionId: string,
                      hosts: string -> Option<string>, approved: set<(string, string)>, injected: bool)
    requires NamesAction(path, manifestId, actionId)
    ensures var r := Decide(store, path, hosts, approved, injected);
            && (r.NoManifest? <==> manifestId !in store)
            && (r.NoAction? <==> manifestId in store && forall a :: a in store[manifestId].actions ==> a.id != actionId)
  {
    PathSplits(path, manifestId, actionId);
    if manifestId in store {
      ActionMissingIff(store[manifestId].actions, actionId);
    }
  }

  lemma PathSplits(path: string, manifestId: string, actionId: string)
    requires NamesAction(path, manifestId, actionId)
    ensures HasPrefix(path, EXEC_PATH_PREFIX)
    ensures SplitExecPath(path[|EXEC_PATH_PREFIX|..]) == Some((manifestId, actionId))
  {
    var start := "/v1/exec/" + manifestId + "/" + actionId;
    assert path[..|EXEC_PATH_PREFIX|] == start[..|EXEC_PATH_PREFIX|] == EXEC_PATH_PREFIX;
    var rest := path[|EXEC_PATH_PREFIX|..];
    assert path == "/v1/exec/" + rest;
    SplitIffNamed(rest, manifestId, actionId);
  }

  lemma {:induction false} ActionMissingIff(actions: seq<Action>, id: string)
    ensures FirstAction(actions, id).None? <==> forall a :: a in actions ==> a.id != id
  {
    if actions != [] {
      assert actions == [actions[0]] + actions[1..];
      ActionMissingIff(actions[1..], id);
    }
  }

  // A call of a stored action is refused for a missing approval, then for an endpoint without a host,
  // then for a host the list does not name, then for missing credentials. Otherwise it is forwarded
  // to the host of that very action's endpoint.
  lemma CallDecided(store: Store, path: string, manifestId: string, a: Action,
                    hosts: string -> Option<string>, approved: set<(string, string)>, injected: bool)
    requires NamesAction(path, manifestId, a.id) && manifestId in store && Finds(store[manifestId], a.id, a)
    ensures var r := Decide(store, path, hosts, approved, injected);
            var b := store[manifestId].boundaries;
            var held := a.id in b.requireApproval && (manifestId, a.id) !in approved;
            var named := hosts(a.endpoint).Some? && exists e :: e in b.egress && NamesHost(e, hosts(a.endpoint).value);
            && (r.ApprovalRequired? <==> held)
            && (r.BadUpstream? <==> !held && hosts(a.endpoint).None?)
            && (r.EgressDenied? <==> !held && hosts(a.endpoint).Some? && !named)
            && (r.InjectionFailed? <==> !held && named && !injected)
            && (r.Forwarded? <==> !held && named && injected)
            && (r.Forwarded? ==> r == Forwarded(manifestId, a, hosts(a.endpoint).value))
  {
    PathSplits(path, manifestId, a.id);
    FirstActionIff(store[manifestId].actions, a.id, a);
    if hosts(a.endpoint).Some? {
      AllowsIffNamed(store[manifestId], hosts(a.endpoint).value);
    }
  }

  // ---- From context to execution ----------------------------------------------------

  // A tool is registered, in place of its namesake, unless its ID is blank or it has no capability.
  lemma RegisteredIsKnown(w: World, t: Tool)
    ensures var after := Next(w, Register(t));
            && after.store == w.store
            && after.tools == if AllSpace(t.id) || t.capabilities == [] then w.tools else w.tools[t.id := t]
  {
    var lead, trail := TrimStrips(t.id);
  }

  // An emitted manifest is stored under its ID and nothing else changes; a refusal changes nothing.
  lemma EmittedIsStored(w: World, req: ContextRequest, resolved: Option<seq<string>>, opts: Options, newId: string)
    ensures var r := ContextFor(w.tools, req, resolved, opts, newId);
            var after := Next(w, Context(req, resolved, opts, newId));
            && after.tools == w.tools
            && (r.Emitted? && newId != "" ==> newId in after.store && after.store[newId] == r.m)
            && (!r.Emitted? ==> after.store == w.store)
            && (forall id :: id != newId ==> (id in after.store <==> id in w.store))
            && (forall id :: id != newId && id in w.store ==> after.store[id] == w.store[id])
  {
  }

  // Calling the i-th action of the stored manifest is forwarded to the host of its endpoint.
  ghost predicate Executes(store: Store, id: string, i: nat, hosts: string -> Option<string>,
                           approved: set<(string, string)>)
  {
    && id in store && i < |store[id].actions| && hosts(store[id].actions[i].endpoint).Some?
    && var a := store[id].actions[i];
       Decide(store, "/v1/exec/" + id + "/" + a.id, hosts, approved, true) ==
       Forwarded(id, a, hosts(a.endpoint).value)
  }

  lemma EmittedIsBuilt(tools: ToolMap, req: ContextRequest, resolved: Option<seq<string>>, opts: Options, newId: string)
    requires ContextFor(tools, req, resolved, opts, newId).Emitted?
    ensures resolved.Some?
    ensures ContextFor(tools, req, resolved, opts, newId).m ==
            ManifestFor(LookupResult(tools, resolved.value), opts, newId)
  {
  }

  // Every action of a manifest just emitted can be executed: if its endpoint has a host that its own
  // tool may reach, an approval is there where the tool asks for one, and so are credentials, the
  // call is forwarded.
  lemma EmittedActionRuns(w: World, req: ContextRequest, resolved: Option<seq<string>>, opts: Options, newId: string,
                          i: nat, hosts: string -> Option<string>, approved: set<(string, string)>)
    requires WellKeyed(w.tools) && newId != "" && '/' !in newId
    requires ContextFor(w.tools, req, resolved, opts, newId).Emitted?
    requires i < |LookupResult(w.tools, resolved.value)|
    requires var t := LookupResult(w.tools, resolved.value)[i];
             && hosts(t.endpoint).Some? && Reaches(t, hosts(t.endpoint).value)
             && (t.requireApproval ==> (newId, ActionId(i)) in approved)
    ensures var store := Next(w, Context(req, resolved, opts, newId)).store;
            && newId in store && store[newId] == ContextFor(w.tools, req, resolved, opts, newId).m
            && Executes(store, newId, i, hosts, approved)
  {
    EmittedIsStored(w, req, resolved, opts, newId);
    EmittedIsBuilt(w.tools, req, resolved, opts, newId);
    StoredActionRuns(Next(w, Context(req, resolved, opts, newId)).store, LookupResult(w.tools, resolved.value),
      opts, newId, i, hosts, approved);
  }

  lemma StoredActionRuns(store: Store, ts: seq<Tool>, opts: Options, newId: string, i: nat,
                         hosts: string -> Option<string>, approved: set<(string, string)>)
    requires newId != "" && '/' !in newId && newId in store && store[newId] == ManifestFor(ts, opts, newId)
    requires i < |ts| && hosts(ts[i].endpoint).Some? && Reaches(ts[i], hosts(ts[i].endpoint).value)
    requires ts[i].requireApproval ==> (newId, ActionId(i)) in approved
    ensures Executes(store, newId, i, hosts, approved)
  {
    var m := store[newId];
    OwnActionIsFound(m, ts, opts, newId, i);
    OwnHostIsNamed(m, ts, opts, newId, i, hosts(ts[i].endpoint).value);
    OwnApproval(ts, i, newId, approved);
    var path := "/v1/exec/" + newId + "/" + ActionId(i);
    assert NamesAction(path, newId, ActionId(i));
    CallDecided(store, path, newId, m.actions[i], hosts, approved, true);
  }

  lemma OwnActionIsFound(m: ExecutionManifest, ts: seq<Tool>, opts: Options, newId: string, i: nat)
    requires m == ManifestFor(ts, opts, newId) && i < |ts|
    ensures i < |m.actions| && m.actions[i].id == ActionId(i) && m.actions[i].endpoint == ts[i].endpoint
    ensures ActionId(i) != "" && '/' !in ActionId(i)
    ensures Finds(m, ActionId(i), m.actions[i])
  {
    forall k | 0 <= k < i ensures m.actions[k].id != ActionId(i) {
      assert m.actions[k].id == ActionId(k);
      if ActionId(k) == ActionId(i) { ActionIdInjective(k, i); }
    }
    ReadDecimalBack(i + 1);
  }

  lemma OwnHostIsNamed(m: ExecutionManifest, ts: seq<Tool>, opts: Options, newId: string, i: nat, host: string)
    requires m == ManifestFor(ts, opts, newId) && i < |ts| && Reaches(ts[i], host)
    ensures exists e :: e in m.boundaries.egress && NamesHost(e, host)
  {
    var e :| e in ts[i].egress && NamesHost(e, host);
    EgressListed(ts, i, e);
    assert e in m.boundaries.egress;
  }

  lemma OwnApproval(ts: seq<Tool>, i: nat, newId: string, approved: set<(string, string)>)
    requires i < |ts| && (ts[i].requireApproval ==> (newId, ActionId(i)) in approved)
    ensures ActionId(i) in Approvals(ts) ==> (newId, ActionId(i)) in approved
  {
    ApprovalsExact(ts, ActionId(i));
    if ActionId(i) in Approvals(ts) {
      var j: nat :| j < |ts| && ts[j].requireApproval && ActionId(i) == ActionId(j);
      ActionIdInjective(i, j);
    }
  }

  // ---- The seeded registry ----------------------------------------------------------

  // The endpoint is a URL of that host and port.
  ghost predicate PointsTo(endpoint: string, host: string, port: string)
  {
    exists scheme, path :: endpoint == scheme + "://" + host + ":" + port + "/" + path
  }

  lemma Points(endpoint: string, scheme: string, host: string, port: string, path: string)
    requires endpoint == scheme + "://" + host + ":" + port + "/" + path
    ensures PointsTo(endpoint, host, port)
  {
  }

  lemma DbQueryEndpoint()
    ensures PointsTo(DB_QUERY.endpoint, "db-proxy.svc", "50051")
  {
    assert "grpc" + "://" == "grpc://";
    assert "grpc://" + "db-proxy.svc" + ":" == "grpc://db-proxy.svc:";
    Points(DB_QUERY.endpoint, "grpc", "db-proxy.svc", "50051", "query");
  }

  lemma TemplateRenderEndpoint()
    ensures PointsTo(TEMPLATE_RENDER.endpoint, "template-svc.svc", "8080")
  {
    assert "http" + "://" == "http://";
    assert "http://" + "template-svc.svc" == "http://template-svc.svc";
    assert "http://template-svc.svc" + ":" == "http://template-svc.svc:";
    assert "http://template-svc.svc:" + "8080" == "http://template-svc.svc:8080";
    assert "http://template-svc.svc:8080" + "/" == "http://template-svc.svc:8080/";
    Points(TEMPLATE_RENDER.endpoint, "http", "template-svc.svc", "8080", "render");
  }

  lemma EmailSendEndpoint()
    ensures PointsTo(EMAIL_SEND.endpoint, "email-gw.svc", "443")
  {
    Points(EMAIL_SEND.endpoint, "https", "email-gw.svc", "443", "send");
  }

  lemma SlackSendEndpoint()
    ensures PointsTo(SLACK_SEND.endpoint, "slack-gw.svc", "443")
  {
    Points(SLACK_SEND.endpoint, "https", "slack-gw.svc", "443", "messages");
  }

  lemma AuditLogEndpoint()
    ensures PointsTo(AUDIT_LOG.endpoint, "audit.svc", "8080")
  {
    Points(AUDIT_LOG.endpoint, "http", "audit.svc", "8080", "events");
  }

  // A seed tool may reach the one host its endpoint names.
  ghost predicate SelfContained(t: Tool, host: string, port: string)
  {
    PointsTo(t.endpoint, host, port) && ':' !in host && t.egress == [host]
  }

  lemma SeedEndpoint(t: Tool) returns (host: string, port: string)
    requires t in SEED_TOOLS
    ensures SelfContained(t, host, port)
  {
    if t == DB_QUERY {
      DbQueryEndpoint();
      host, port := "db-proxy.svc", "50051";
    } else if t == TEMPLATE_RENDER {
      TemplateRenderEndpoint();
      host, port := "template-svc.svc", "8080";
    } else if t == EMAIL_SEND {
      EmailSendEndpoint();
      host, port := "email-gw.svc", "443";
    } else if t == SLACK_SEND {
      SlackSendEndpoint();
      host, port := "slack-gw.svc", "443";
    } else {
      AuditLogEndpoint();
      host, port := "audit.svc", "8080";
    }
  }

  lemma SelfContainedMayRun(ts: seq<Tool>, opts: Options, newId: string, i: nat, host: string, port: string)
    requires i < |ts| && SelfContained(ts[i], host, port)
    ensures var m := ManifestFor(ts, opts, newId);
            && i < |m.actions| && PointsTo(m.actions[i].endpoint, host, port)
            && Allows(m, host + ":" + port)
  {
    var t, whole := ts[i], host + ":" + port;
    assert host <= whole && whole[|host|] == ':';
    assert host in t.egress && NamesHost(host, whole);
    var m := ManifestFor(ts, opts, newId);
    OwnHostIsNamed(m, ts, opts, newId, i, whole);
    AllowsIffNamed(m, whole);
  }

  lemma SeededLookup(tools: ToolMap, caps: seq<string>, i: nat)
    requires Seeded(tools) && i < |LookupResult(tools, caps)|
    ensures LookupResult(tools, caps)[i] in SEED_TOOLS
  {
    LookupExact(tools, caps);
    assert LookupResult(tools, caps)[i] in LookupResult(tools, caps);
  }

  // Every action of a manifest built from the seeded registry may call its own endpoint, port and all.
  lemma SeededActionsMayRun(tools: ToolMap, caps: seq<string>, opts: Options, newId: string, i: nat)
    returns (host: string, port: string)
    requires Seeded(tools) && i < |LookupResult(tools, caps)|
    ensures var m := ManifestFor(LookupResult(tools, caps), opts, newId);
            && i < |m.actions| && PointsTo(m.actions[i].endpoint, host, port)
            && Allows(m, host + ":" + port)
  {
    SeededLookup(tools, caps, i);
    host, port := SeedEndpoint(LookupResult(tools, caps)[i]);
    SelfContainedMayRun(LookupResult(tools, caps), opts, newId, i, host, port);
  }
}
