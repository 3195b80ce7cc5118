// internal/server and internal/proxy: manifests are built and stored on /v1/context, and actions
// are forwarded on /v1/exec.

module Gateway {
  import opened Order
  import opened Text
  import opened Manifest
  import opened Registry
  import opened Builder

  type Store = map<string, ExecutionManifest>

  class MemoryStore {
    var manifests: Store

    constructor ()
      ensures manifests == map[]
    {
      manifests := map[];
    }

    // A manifest without an ID is not kept; one with a known ID replaces its predecessor.
    method Put(m: ExecutionManifest)
      modifies this
      ensures manifests == Kept(old(manifests), m)
    {
      if m.manifestId == "" {
        return;
      }
      manifests := manifests[m.manifestId := m];
    }
  }

  function Kept(store: Store, m: ExecutionManifest): Store
  {
    if m.manifestId == "" then store else store[m.manifestId := m]
  }

  // ---- Serving /v1/context -----------------------------------------------------------

  datatype ContextRequest = ContextRequest(intent: string, agentId: string, capabilities: seq<string>)

  datatype ContextResponse = Emitted(m: ExecutionManifest) | BadContext(reason: string) | Unresolved | NoTools

  // resolved is the resolver's answer to the request, None being its error.
  ghost function ContextFor(tools: ToolMap, req: ContextRequest, resolved: Option<seq<string>>,
                            opts: Options, newId: string): ContextResponse
  {
    if Trim(req.intent) == "" && req.capabilities == [] then BadContext("intent or capabilities required")
    else if Trim(req.agentId) == "" then BadContext("agent_id is required")
    else match resolved
      case None => Unresolved
      case Some(caps) =>
        match BuildFor(tools, caps, opts, newId)
        case NoMatchingTools => NoTools
        case Built(m) => Emitted(m)
  }

  ghost function StoreAfter(store: Store, r: ContextResponse): Store
  {
    if r.Emitted? then Kept(store, r.m) else store
  }

  method HandleContext(reg: MemoryRegistry, store: MemoryStore, req: ContextRequest,
                       resolved: Option<seq<string>>, opts: Options, newId: string)
    returns (r: ContextResponse)
    requires reg.Valid()
    modifies store
    ensures r == ContextFor(reg.tools, req, resolved, opts, newId)
    ensures store.manifests == StoreAfter(old(store.manifests), r)
  {
    if Trim(req.intent) == "" && |req.capabilities| == 0 {
      return BadContext("intent or capabilities required");
    }
    if Trim(req.agentId) == "" {
      return BadContext("agent_id is required");
    }
    if resolved.None? {
      return Unresolved;
    }
    var built := Build(reg, resolved.value, opts, newId);
    if built.NoMatchingTools? {
      return NoTools;
    }
    store.Put(built.manifest);
    return Emitted(built.manifest);
  }

  // ---- Serving /v1/exec ---------------------------------------------------------------

  const EXEC_PATH_PREFIX := "/v1/exec/"

  datatype ExecResponse =
    | Forwarded(manifestId: string, action: Action, host: string)
    | NotFound
    | BadPath
    | NoManifest
    | NoAction
    | ApprovalRequired
    | BadUpstream
    | EgressDenied
    | InjectionFailed

  function SplitExecPath(rest: string): Option<(string, string)>
  {
    var parts := Split(rest, '/');
    if |parts| < 2 || parts[0] == "" || parts[1] == "" then None else Some((parts[0], parts[1]))
  }

  function ActionIn(m: ExecutionManifest, id: string): Option<Action>
  {
    FirstAction(m.actions, id)
  }

  function FirstAction(actions: seq<Action>, id: string): Option<Action>
  {
    if actions == [] then None
    else if actions[0].id == id then Some(actions[0])
    else FirstAction(actions[1..], id)
  }

  function BeforeColon(s: string): string
  {
    if s == "" || s[0] == ':' then "" else [s[0]] + BeforeColon(s[1..])
  }

  // The host is on the list, ignoring case and a port.
  predicate Allows(m: ExecutionManifest, host: string)
  {
    exists a :: a in m.boundaries.egress && Lower(a) == BeforeColon(Lower(host))
  }

  // hosts parses an endpoint to its host (None: invalid or empty); approved holds the
  // manifest/action pairs the gate approves at this moment; injected says credentials were had.
  function Decide(store: Store, path: string, hosts: string -> Option<string>,
                  approved: set<(string, string)>, injected: bool): ExecResponse
  {
    if !HasPrefix(path, EXEC_PATH_PREFIX) then NotFound
    else match SplitExecPath(path[|EXEC_PATH_PREFIX|..])
      case None => BadPath
      case Some((manifestId, actionId)) =>
        if manifestId !in store then NoManifest
        else
          var m := store[manifestId];
          match ActionIn(m, actionId)
          case None => NoAction
          case Some(action) =>
            if actionId in m.boundaries.requireApproval && (manifestId, actionId) !in approved then ApprovalRequired
            else match hosts(action.endpoint)
              case None => BadUpstream
              case Some(host) =>
                if !Allows(m, host) then EgressDenied
                else if !injected then InjectionFailed
                else Forwarded(manifestId, action, host)
  }

  method ServeExec(store: MemoryStore, path: string, hosts: string -> Option<string>,
                   approved: set<(string, string)>, injected: bool) returns (r: ExecResponse)
    ensures r == Decide(store.manifests, path, hosts, approved, injected)
  {
    if !HasPrefix(path, EXEC_PATH_PREFIX) {
      return NotFound;
    }
    var ids := SplitExecPath(path[|EXEC_PATH_PREFIX|..]);
    if ids.None? {
      return BadPath;
    }
    var (manifestId, actionId) := ids.value;
    if manifestId !in store.manifests {
      return NoManifest;
    }
    var m := store.manifests[manifestId];
    var action := FindAction(m, actionId);
    if action.None? {
      return NoAction;
    }
    var gated := RequiresApproval(m, actionId);
    if gated && (manifestId, actionId) !in approved {
      return ApprovalRequired;
    }
    var upstream := hosts(action.value.endpoint);
    if upstream.None? {
      return BadUpstream;
    }
    var allowed := EgressAllowed(m, upstream.value);
    if !allowed {
      return EgressDenied;
    }
    if !injected {
      return InjectionFailed;
    }
    return Forwarded(manifestId, action.value, upstream.value);
  }

  method FindAction(m: ExecutionManifest, id: string) returns (r: Option<Action>)
    ensures r == ActionIn(m, id)
  {
    for i := 0 to |m.actions|
      invariant FirstAction(m.actions[i..], id) == ActionIn(m, id)
    {
      assert m.actions[i..][0] == m.actions[i] && m.actions[i..][1..] == m.actions[i + 1..];
      if m.actions[i].id == id {
        return Some(m.actions[i]);
      }
    }
    return None;
  }

  method RequiresApproval(m: ExecutionManifest, actionId: string) returns (r: bool)
    ensures r <==> actionId in m.boundaries.requireApproval
  {
    var ids := m.boundaries.requireApproval;
    for i := 0 to |ids|
      invariant actionId !in ids[..i]
    {
      if ids[i] == actionId {
        return true;
      }
    }
    return false;
  }

  method EgressAllowed(m: ExecutionManifest, host: string) returns (r: bool)
    ensures r <==> Allows(m, host)
  {
    var bare := BeforeColon(Lower(host));
    BeforeColonFacts(host);
    LowerKeepsColons(host, BeforeColon(host));
    LowerIdempotent(BeforeColon(host));
    var list := m.boundaries.egress;
    for i := 0 to |list|
      invariant forall k :: 0 <= k < i ==> Lower(list[k]) != bare
    {
      if Lower(list[i]) == Lower(bare) {
        assert list[i] in list;
        return true;
      }
    }
    return false;
  }

  // ---- Whole runs -------------------------------------------------------------------

  // A manifest with the registry and capabilities it was built from.
  datatype Origin = Origin(tools: ToolMap, caps: seq<string>, opts: Options, m: ExecutionManifest)

  datatype Step =
    | Register(t: Tool)
    | Context(req: ContextRequest, resolved: Option<seq<string>>, opts: Options, newId: string)
    | Exec(path: string, approved: set<(string, string)>, injected: bool)

  datatype World = World(tools: ToolMap, store: Store, built: seq<Origin>)

  ghost function Next(w: World, step: Step): World
  {
    match step
    case Register(t) =>
      if Trim(t.id) != "" && t.capabilities != [] then w.(tools := w.tools[t.id := t]) else w
    case Context(req, resolved, opts, newId) =>
      var r := ContextFor(w.tools, req, resolved, opts, newId);
      if !r.Emitted? then w
      else World(w.tools, StoreAfter(w.store, r), w.built + [Origin(w.tools, resolved.value, opts, r.m)])
    case Exec(_, _, _) => w
  }

  ghost function Run(steps: seq<Step>): World
  {
    if steps == [] then World(map[], map[], []) else Next(Run(steps[..|steps| - 1]), steps[|steps| - 1])
  }

  ghost function Batch(o: Origin): seq<Tool>
  {
    LookupResult(o.tools, o.caps)
  }

  ghost predicate Genuine(o: Origin)
  {
    BuildFor(o.tools, o.caps, o.opts, o.m.manifestId) == Built(o.m)
  }

  ghost predicate Accounted(w: World)
  {
    && (forall o :: o in w.built ==> Genuine(o))
    && forall id :: id in w.store ==> w.store[id].manifestId == id && exists o :: o in w.built && o.m == w.store[id]
  }

  lemma EmittedIsGenuine(tools: ToolMap, req: ContextRequest, resolved: Option<seq<string>>,
                         opts: Options, newId: string)
    requires ContextFor(tools, req, resolved, opts, newId).Emitted?
    ensures resolved.Some?
    ensures Genuine(Origin(tools, resolved.value, opts, ContextFor(tools, req, resolved, opts, newId).m))
  {
  }

  lemma KeepAccounted(w: World, o: Origin)
    requires Accounted(w) && Genuine(o)
    ensures Accounted(World(w.tools, Kept(w.store, o.m), w.built + [o]))
  {
    var built, store := w.built + [o], Kept(w.store, o.m);
    assert forall p :: p in built <==> p in w.built || p == o;
    forall id | id in store ensures store[id].manifestId == id && exists p :: p in built && p.m == store[id] {
      if id in w.store && store[id] == w.store[id] {
        var p :| p in w.built && p.m == w.store[id];
        assert p in built;
      }
    }
  }

  lemma AccountedStep(w: World, step: Step)
    requires Accounted(w)
    ensures Accounted(Next(w, step))
  {
    match step {
      case Context(req, resolved, opts, newId) =>
        var r := ContextFor(w.tools, req, resolved, opts, newId);
        if r.Emitted? {
          EmittedIsGenuine(w.tools, req, resolved, opts, newId);
          KeepAccounted(w, Origin(w.tools, resolved.value, opts, r.m));
        }
      case _ =>
    }
  }

  lemma {:induction false} RunsAreAccounted(steps: seq<Step>)
    ensures Accounted(Run(steps))
  {
    if steps != [] {
      RunsAreAccounted(steps[..|steps| - 1]);
      AccountedStep(Run(steps[..|steps| - 1]), steps[|steps| - 1]);
    }
  }

  lemma {:induction false} ApprovalsExact(ts: seq<Tool>, id: string)
    ensures id in Approvals(ts) <==> exists i: nat :: i < |ts| && ts[i].requireApproval && id == ActionId(i)
  {
    if ts != [] {
      var init, n := ts[..|ts| - 1], |ts| - 1;
      ApprovalsExact(init, id);
      if id in Approvals(init) {
        var i: nat :| i < |init| && init[i].requireApproval && id == ActionId(i);
        assert ts[i] == init[i];
      }
      if i: nat :| i < |ts| && ts[i].requireApproval && id == ActionId(i) {
        if i < n { assert init[i] == ts[i]; }
      }
    }
  }

  lemma {:induction false} FirstActionFound(actions: seq<Action>, id: string) returns (i: nat)
    requires FirstAction(actions, id).Some?
    ensures i < |actions| && actions[i] == FirstAction(actions, id).value && actions[i].id == id
  {
    if actions[0].id == id {
      i := 0;
    } else {
      var k := FirstActionFound(actions[1..], id);
      i := k + 1;
    }
  }

  // The allowed name and the host are the same, ignoring case and what follows the first colon.
  ghost predicate NamesHost(allowed: string, host: string)
  {
    exists bare: string :: bare <= host && ':' !in bare && (bare == host || host[|bare|] == ':') &&
                           Lower(allowed) == Lower(bare)
  }

  ghost predicate Reaches(t: Tool, host: string)
  {
    exists h :: h in t.egress && NamesHost(h, host)
  }

  lemma {:induction false} CutAtColon(s: string, bare: string)
    requires bare <= s && ':' !in bare && (bare == s || s[|bare|] == ':')
    ensures BeforeColon(s) == bare
  {
    if bare != "" {
      assert s[0] == bare[0] && bare[0] in bare;
      CutAtColon(s[1..], bare[1..]);
      assert bare == [bare[0]] + bare[1..];
    }
  }

  lemma {:induction false} BeforeColonFacts(s: string)
    ensures BeforeColon(s) <= s && ':' !in BeforeColon(s)
    ensures BeforeColon(s) == s || s[|BeforeColon(s)|] == ':'
  {
    if s != "" && s[0] != ':' {
      BeforeColonFacts(s[1..]);
      assert s == [s[0]] + s[1..];
    }
  }

  lemma LowerKeepsColons(s: string, bare: string)
    requires bare <= s && ':' !in bare && (bare == s || s[|bare|] == ':')
    ensures BeforeColon(Lower(s)) == Lower(bare)
  {
    forall i | 0 <= i < |bare| ensures Lower(bare)[i] != ':' {
      assert bare[i] in bare;
    }
    CutAtColon(Lower(s), Lower(bare));
  }

  lemma NamesHostIff(allowed: string, host: string)
    ensures NamesHost(allowed, host) <==> Lower(allowed) == BeforeColon(Lower(host))
  {
    BeforeColonFacts(host);
    LowerKeepsColons(host, BeforeColon(host));
    if NamesHost(allowed, host) {
      var bare: string :| bare <= host && ':' !in bare && (bare == host || host[|bare|] == ':') &&
                          Lower(allowed) == Lower(bare);
      LowerKeepsColons(host, bare);
    }
  }

  // A host is admitted exactly when the list names it, ignoring case and its port.
  lemma AllowsIffNamed(m: ExecutionManifest, host: string)
    ensures Allows(m, host) <==> exists a :: a in m.boundaries.egress && NamesHost(a, host)
  {
    forall a | a in m.boundaries.egress ensures NamesHost(a, host) <==> Lower(a) == BeforeColon(Lower(host)) {
      NamesHostIff(a, host);
    }
  }

  // So the port makes no difference.
  lemma PortIsIgnored(m: ExecutionManifest, h: string, port: string)
    requires ':' !in h
    ensures Allows(m, h + ":" + port) <==> Allows(m, h)
    ensures Allows(m, h) <==> exists a :: a in m.boundaries.egress && Lower(a) == Lower(h)
  {
    LowerKeepsColons(h, h);
    assert (h + ":" + port)[|h|] == ':';
    LowerKeepsColons(h + ":" + port, h);
  }

  lemma EgressListed(ts: seq<Tool>, i: nat, h: string)
    requires i < |ts| && h in ts[i].egress
    ensures h in SortedSet(EgressOf(ts))
  {
    SortedSetIsSorted(EgressOf(ts));
    assert ts[i] in ts;
    assert h in Elems(SortedSet(EgressOf(ts)));
  }

  // The egress list admits a host exactly when one of the tools behind the manifest may reach it.
  lemma AllowedIffReached(o: Origin, host: string)
    requires Genuine(o)
    ensures Allows(o.m, host) <==> exists t :: t in Batch(o) && Reaches(t, host)
  {
    var hosts := EgressOf(Batch(o));
    SortedSetIsSorted(hosts);
    AllowsIffNamed(o.m, host);
    assert o.m.boundaries.egress == SortedSet(hosts);
    assert forall a :: a in SortedSet(hosts) <==> a in Elems(SortedSet(hosts));
    if a :| a in o.m.boundaries.egress && NamesHost(a, host) {
      var t :| t in Batch(o) && a in t.egress;
      assert Reaches(t, host);
    }
    if t :| t in Batch(o) && Reaches(t, host) {
      var h :| h in t.egress && NamesHost(h, host);
      assert h in hosts;
    }
  }

  // What a forwarded call proves about the past.
  ghost predicate Justified(o: Origin, i: nat, r: ExecResponse, hosts: string -> Option<string>,
                            approved: set<(string, string)>)
    requires r.Forwarded?
  {
    && Genuine(o) && o.m.manifestId == r.manifestId
    && i < |Batch(o)| && r.action == ActionFor(Batch(o), i)
    && r.action.endpoint == Batch(o)[i].endpoint && hosts(r.action.endpoint) == Some(r.host)
    && (exists t :: t in Batch(o) && Reaches(t, r.host))
    && (Batch(o)[i].requireApproval ==> (r.manifestId, r.action.id) in approved)
  }

  lemma Justify(o: Origin, i: nat, r: ExecResponse, hosts: string -> Option<string>, approved: set<(string, string)>)
    requires r.Forwarded? && Genuine(o) && o.m.manifestId == r.manifestId
    requires i < |o.m.actions| && o.m.actions[i] == r.action && hosts(r.action.endpoint) == Some(r.host)
    requires Allows(o.m, r.host)
    requires r.action.id in o.m.boundaries.requireApproval ==> (r.manifestId, r.action.id) in approved
    ensures Justified(o, i, r, hosts, approved)
  {
    AllowedIffReached(o, r.host);
    ActionOrigin(o, i, r.action);
    ApprovalsExact(Batch(o), r.action.id);
  }

  // The checks a forwarded call has passed.
  ghost predicate Passed(store: Store, r: ExecResponse, hosts: string -> Option<string>,
                         approved: set<(string, string)>)
    requires r.Forwarded?
  {
    && r.manifestId in store
    && FirstAction(store[r.manifestId].actions, r.action.id) == Some(r.action)
    && hosts(r.action.endpoint) == Some(r.host)
    && Allows(store[r.manifestId], r.host)
    && (r.action.id in store[r.manifestId].boundaries.requireApproval ==> (r.manifestId, r.action.id) in approved)
  }

  lemma ForwardedPassed(store: Store, path: string, hosts: string -> Option<string>, approved: set<(string, string)>,
                        injected: bool, r: ExecResponse)
    requires r == Decide(store, path, hosts, approved, injected) && r.Forwarded?
    ensures Passed(store, r, hosts, approved)
  {
    var ids := SplitExecPath(path[|EXEC_PATH_PREFIX|..]).value;
    var k := FirstActionFound(store[ids.0].actions, ids.1);
  }

  lemma ActionOrigin(o: Origin, i: nat, a: Action)
    requires Genuine(o) && i < |o.m.actions| && o.m.actions[i] == a
    ensures i < |Batch(o)| && a == ActionFor(Batch(o), i) && a.id == ActionId(i)
    ensures o.m.boundaries.requireApproval == Approvals(Batch(o))
  {
  }

  lemma PassedIsJustified(w: World, r: ExecResponse, hosts: string -> Option<string>, approved: set<(string, string)>)
    returns (o: Origin, i: nat)
    requires Accounted(w) && r.Forwarded? && Passed(w.store, r, hosts, approved)
    ensures o in w.built && Justified(o, i, r, hosts, approved)
  {
    o :| o in w.built && o.m == w.store[r.manifestId];
    i := FirstActionFound(o.m.actions, r.action.id);
    Justify(o, i, r, hosts, approved);
  }

  // In every run, a forwarded call goes to the endpoint of an action of a manifest built earlier
  // in the run; its host is on the egress list of one of the tools that manifest was built from;
  // and if the action's own tool was marked for approval, the gate approved exactly that
  // manifest and action.
  lemma ForwardedIsJustified(steps: seq<Step>, path: string, hosts: string -> Option<string>,
                             approved: set<(string, string)>, injected: bool, r: ExecResponse)
    returns (o: Origin, i: nat)
    requires r == Decide(Run(steps).store, path, hosts, approved, injected) && r.Forwarded?
    ensures o in Run(steps).built && Justified(o, i, r, hosts, approved)
  {
    RunsAreAccounted(steps);
    ForwardedPassed(Run(steps).store, path, hosts, approved, injected, r);
    o, i := PassedIsJustified(Run(steps), r, hosts, approved);
  }

  // Nothing else stops a call: one that passes the checks on an existing action is forwarded.
  lemma PassedIsForwarded(store: Store, manifestId: string, actionId: string, hosts: string -> Option<string>,
                          approved: set<(string, string)>, r: ExecResponse)
    requires '/' !in manifestId && '/' !in actionId && manifestId != "" && actionId != ""
    requires r.Forwarded? && r.manifestId == manifestId && r.action.id == actionId
    requires Passed(store, r, hosts, approved)
    ensures Decide(store, EXEC_PATH_PREFIX + manifestId + "/" + actionId, hosts, approved, true) == r
  {
    var path, rest := EXEC_PATH_PREFIX + manifestId + "/" + actionId, manifestId + ['/'] + actionId;
    assert path[..|EXEC_PATH_PREFIX|] == EXEC_PATH_PREFIX && path[|EXEC_PATH_PREFIX|..] == rest;
    SplitAfter(manifestId, '/', actionId);
    SplitPlain(actionId, '/');
    assert SplitExecPath(rest) == Some((manifestId, actionId));
  }

  // The registry and capabilities of an origin are those its own step of the run saw.
  lemma {:induction false} BuiltDuringRun(steps: seq<Step>, o: Origin) returns (k: nat)
    requires o in Run(steps).built
    ensures k < |steps| && steps[k].Context? && steps[k].resolved == Some(o.caps)
    ensures o.tools == Run(steps[..k]).tools && o.m.manifestId == steps[k].newId
  {
    var n := |steps| - 1;
    if o in Run(steps[..n]).built {
      k := BuiltDuringRun(steps[..n], o);
      assert steps[..n][..k] == steps[..k];
    } else {
      k := n;
    }
  }
}
