// internal/registry/seed.go: the demo tool table, and why its manifests always schedule.

module Seed {
  import opened Order
  import opened Text
  import opened Graph
  import opened Manifest
  import opened Registry
  import opened Builder
  import opened Ordering
  import opened Pipeline

  const DB_QUERY := Tool("db.query", "http", "grpc://db-proxy.svc:50051/query", "POST",
    map["sql" := "string", "limit" := "int?"], PreInjected, "30s",
    ["sql", "database"], ["db-proxy.svc"], [], false)

  const TEMPLATE_RENDER := Tool("template.render", "http", "http://template-svc.svc:8080/render", "POST",
    map["template_id" := "string", "data" := "json"], PreInjected, "10s",
    ["template"], ["template-svc.svc"], ["sql"], false)

  const EMAIL_SEND := Tool("email.send", "http", "https://email-gw.svc:443/send", "POST",
    map["to" := "string[]", "subject" := "string", "body" := "string", "attachment_ref" := "string?"],
    PreInjected, "15s", ["email"], ["email-gw.svc"], ["template", "sql"], true)

  const SLACK_SEND := Tool("slack.send_message", "http", "https://slack-gw.svc:443/messages", "POST",
    map["channel" := "string", "text" := "string"], PreInjected, "10s",
    ["messaging", "slack"], ["slack-gw.svc"], [], false)

  const AUDIT_LOG := Tool("audit.log_event", "http", "http://audit.svc:8080/events", "POST",
    map["actor" := "string", "action" := "string", "payload" := "json"], PreInjected, "5s",
    ["audit"], ["audit.svc"], [], false)

  const SEED_TOOLS: seq<Tool> := [DB_QUERY, TEMPLATE_RENDER, EMAIL_SEND, SLACK_SEND, AUDIT_LOG]

  method SeedRegistry(reg: MemoryRegistry) returns (ok: bool)
    requires reg.Valid()
    modifies reg
    ensures reg.Valid() && ok
    ensures reg.tools == Load(old(reg.tools), SEED_TOOLS)
  {
    var tools := SEED_TOOLS;
    for i := 0 to |tools|
      invariant reg.Valid()
      invariant reg.tools == Load(old(reg.tools), tools[..i])
    {
      SeedToolIsComplete(i);
      assert tools[..i + 1][..i] == tools[..i];
      ok := reg.Register(tools[i]);
      if !ok {
        return false;
      }
    }
    assert tools[..|tools|] == tools;
    return true;
  }

  lemma SeedToolIsComplete(i: nat)
    requires i < |SEED_TOOLS|
    ensures Trim(SEED_TOOLS[i].id) != "" && SEED_TOOLS[i].capabilities != []
  {
    TrimmedIsFixed(SEED_TOOLS[i].id);
  }

  // Seeding an empty registry leaves it holding seed tools only.
  lemma FreshSeedIsSeeded()
    ensures Seeded(Load(map[], SEED_TOOLS))
  {
    LoadKeepsTools(map[], SEED_TOOLS);
  }

  // The registry of a freshly seeded server.
  ghost predicate Seeded(tools: ToolMap)
  {
    WellKeyed(tools) && forall id :: id in tools ==> tools[id] in SEED_TOOLS
  }

  function Stage(t: Tool): nat
  {
    if t.id == "email.send" then 2 else if t.id == "template.render" then 1 else 0
  }

  lemma PlainLower(s: string)
    requires forall c :: c in s ==> !('A' <= c <= 'Z')
    ensures Lower(s) == s
  {
    assert forall i :: 0 <= i < |s| ==> s[i] in s;
  }

  lemma SeedTagsAreLower(t: Tool, k: string)
    requires t in SEED_TOOLS && (k in t.capabilities || k in t.dependsOnCaps)
    ensures Lower(k) == k
  {
    PlainLower(k);
  }

  // Each need among the seed tools points to an earlier stage.
  lemma SeedNeedsDescend(t: Tool, u: Tool)
    requires t in SEED_TOOLS && u in SEED_TOOLS && Needs(t, u)
    ensures Stage(u) < Stage(t)
  {
    var c :| c in t.dependsOnCaps && Tagged(u, Lower(c));
    var k :| k in u.capabilities && Lower(k) == Lower(c);
    SeedTagsAreLower(t, c);
    SeedTagsAreLower(u, k);
    assert k == c;
    assert c == "sql" || c == "template";
  }

  lemma SeedNeedsAcyclic(ts: seq<Tool>)
    requires Distinct(ToolIds(ts)) && forall t :: t in ts ==> t in SEED_TOOLS
    ensures Acyclic(ToolGraph(ts))
  {
    var g := ToolGraph(ts);
    assert g.Keys == Elems(ToolIds(ts));
    var rank := map id | id in g :: Stage(ts[ToolIndex(ts, id)]);
    forall v, d | v in g && d in g[v] && d in g ensures rank[d] < rank[v] {
      var i, j := ToolIndex(ts, v), ToolIndex(ts, d);
      ToolGraphEdge(ts, i, j);
      SeedNeedsDescend(ts[i], ts[j]);
    }
    RankedIsAcyclic(g, rank);
  }

  // Every manifest built from the seeded registry schedules, whatever was requested.
  lemma SeededManifestsSchedule(tools: ToolMap, caps: seq<string>, opts: Options, newId: string)
    requires Seeded(tools) && BuildFor(tools, caps, opts, newId).Built?
    ensures TopologicalResult(BuildFor(tools, caps, opts, newId).manifest.actions).Scheduled?
  {
    SchedulableIffNeedsAcyclic(tools, caps, opts, newId);
    var ts := LookupResult(tools, caps);
    SelectSortedFacts(tools, MatchingIds(tools, NormSet(caps)));
    forall t | t in ts ensures t in SEED_TOOLS {
      assert tools[t.id] == t;
    }
    SeedNeedsAcyclic(ts);
  }
}
