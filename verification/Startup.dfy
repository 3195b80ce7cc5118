// cmd/acp-bridge/main.go and the client manager of internal/mcpclient: from configured sources
// to a serving bridge, and from a called tool back to the client it came from.

module Startup {
  import opened Order
  import opened Text
  import opened Manifest
  import opened Registry
  import opened Deferred
  import opened Bridge
  import opened Sessions
  import opened Naming
  import opened Importer

  // A connected downstream client, known by its number.
  datatype Client = Client(number: nat)

  datatype Kind = Stdio | Http | Unsupported

  // listing is what the source answered to tools/list; None when it could not be reached.
  datatype SourceConfig = SourceConfig(name: string, kind: Kind, url: string, capabilities: seq<string>,
                                       client: Client, listing: Option<seq<ToolDescriptor>>)

  // What a call comes to: the client that gets the tool name and arguments and the seconds it
  // has, or the error that no client is registered for the source.
  datatype Forwarded = Sent(client: Client, tool: string, args: string, timeout: int) | NoClient(source: string)

  function Forward(clients: map<string, Client>, timeout: int, source: string, tool: string, args: string): Forwarded
  {
    if source in clients then Sent(clients[source], tool, args, timeout) else NoClient(source)
  }

  class Manager {
    var clients: map<string, Client>
    const timeout: int

    constructor (timeout: int)
      ensures clients == map[]
      ensures this.timeout == if timeout <= 0 then 30 else timeout
    {
      clients := map[];
      this.timeout := if timeout <= 0 then 30 else timeout;
    }

    method Register(source: string, client: Client) returns (ok: bool)
      modifies this
      ensures ok <==> Trim(source) != ""
      ensures clients == if ok then old(clients)[source := client] else old(clients)
    {
      if Trim(source) == "" {
        return false;
      }
      clients := clients[source := client];
      return true;
    }

    method Call(source: string, tool: string, args: string) returns (r: Forwarded)
      ensures r == Forward(clients, timeout, source, tool, args)
    {
      if source !in clients {
        return NoClient(source);
      }
      return Sent(clients[source], tool, args, timeout);
    }
  }

  // ---- Importing every source --------------------------------------------------------

  datatype Imported = Imported(tools: ToolMap, clients: map<string, Client>)

  ghost function SourceOf(cfg: SourceConfig): Source
  {
    if cfg.kind.Stdio? then Source(SafeName(cfg.name), "", "stdio", cfg.capabilities)
    else Source(SafeName(cfg.name), cfg.url, "", cfg.capabilities)
  }

  ghost predicate Reached(cfg: SourceConfig)
  {
    && SafeName(cfg.name) != ""
    && cfg.listing.Some?
    && (cfg.kind.Stdio? || (cfg.kind.Http? && Trim(cfg.url) != ""))
  }

  ghost function ImportOne(st: Imported, cfg: SourceConfig): Imported
  {
    if !Reached(cfg) then st
    else Imported(
      Load(st.tools, ConvertedAll(SourceOf(cfg), cfg.listing.value)),
      if cfg.kind.Stdio? then st.clients[SafeName(cfg.name) := cfg.client] else st.clients)
  }

  // A source without a safe name or a listing, of an unknown kind, or without a URL where it needs one
  // is skipped; any other adds its tools' IDs, and its client if it is a process.
  lemma SourceAdded(st: Imported, cfg: SourceConfig)
    ensures var skipped := SafeName(cfg.name) == "" || cfg.listing.None? || cfg.kind.Unsupported? ||
                           (cfg.kind.Http? && AllSpace(cfg.url));
            && (skipped ==> ImportOne(st, cfg) == st)
            && (!skipped ==>
                 && ImportOne(st, cfg).tools.Keys ==
                    st.tools.Keys + Elems(ToolIds(ConvertedAll(SourceOf(cfg), cfg.listing.value)))
                 && ImportOne(st, cfg).clients ==
                    if cfg.kind.Stdio? then st.clients[SafeName(cfg.name) := cfg.client] else st.clients)
  {
    var lead, trail := TrimStrips(cfg.url);
    if Reached(cfg) {
      LoadHasIds(st.tools, ConvertedAll(SourceOf(cfg), cfg.listing.value));
    }
  }

  // A tool listed by an HTTP source is called below that source's URL and may reach its host alone.
  lemma HttpToolImported(cfg: SourceConfig, d: ToolDescriptor, scheme: string, host: string, rest: string)
    requires Reached(cfg) && cfg.kind.Http? && Named(d) && BaseUrl(cfg.url, scheme, host, rest)
    ensures Converted(SourceOf(cfg), d).Some?
    ensures var t := Converted(SourceOf(cfg), d).value;
            && t.id == ToolId(SafeName(cfg.name), d.name) && t.typ == "http" && t.verb == "POST"
            && t.egress == [host]
            && CalledBelow(t.endpoint, cfg.url, scheme + host, "/tools/call/" + d.name)
  {
    assert Lower("") == "";
    HttpToolConverted(SourceOf(cfg), d, scheme, host, rest);
  }

  ghost function ImportAll(cfgs: seq<SourceConfig>): Imported
  {
    if cfgs == [] then Imported(map[], map[])
    else ImportOne(ImportAll(cfgs[..|cfgs| - 1]), cfgs[|cfgs| - 1])
  }

  method ImportSources(cfgs: seq<SourceConfig>) returns (reg: MemoryRegistry, manager: Manager)
    ensures fresh(reg) && fresh(manager) && reg.Valid() && manager.timeout == 30
    ensures Imported(reg.tools, manager.clients) == ImportAll(cfgs)
  {
    reg := new MemoryRegistry();
    manager := new Manager(30);
    for i := 0 to |cfgs|
      invariant fresh(reg) && fresh(manager) && reg.Valid() && manager.timeout == 30
      invariant Imported(reg.tools, manager.clients) == ImportAll(cfgs[..i])
    {
      ImportSource(reg, manager, cfgs[i]);
      assert cfgs[..i + 1][..i] == cfgs[..i];
    }
    assert cfgs[..|cfgs|] == cfgs;
  }

  method ImportSource(reg: MemoryRegistry, manager: Manager, cfg: SourceConfig)
    requires reg.Valid()
    modifies reg, manager
    ensures reg.Valid()
    ensures Imported(reg.tools, manager.clients) == ImportOne(old(Imported(reg.tools, manager.clients)), cfg)
  {
    var name := SafeSourceName(cfg.name);
    if name == "" || cfg.kind.Unsupported? || (cfg.kind.Http? && Trim(cfg.url) == "") || cfg.listing.None? {
      return;
    }
    if cfg.kind.Stdio? {
      SafeNameIsSafe(cfg.name);
      SafeIsNormal(name);
      TrimmedIsFixed(name);
      var ok := manager.Register(name, cfg.client);
      if !ok {
        return;
      }
      var n, all := RegisterAll(reg, Source(name, "", "stdio", cfg.capabilities), cfg.listing.value);
    } else {
      var n, all := RegisterAll(reg, Source(name, cfg.url, "", cfg.capabilities), cfg.listing.value);
    }
  }

  // ---- The serving bridge -----------------------------------------------------------

  method CollectCapabilities(tools: seq<Tool>) returns (caps: seq<string>)
    ensures caps == SortedSet(AllTags(tools))
  {
    var capSet: set<string> := {};
    for i := 0 to |tools|
      invariant capSet == AllTags(tools[..i])
    {
      capSet := capSet + Elems(tools[i].capabilities);
      TagsStep(tools, i);
    }
    assert tools[..|tools|] == tools;
    caps := SortedKeys(capSet);
  }

  ghost function AllTags(tools: seq<Tool>): set<string>
  {
    set t, c | t in tools && c in t.capabilities :: c
  }

  lemma TagsStep(tools: seq<Tool>, i: nat)
    requires i < |tools|
    ensures AllTags(tools[..i + 1]) == AllTags(tools[..i]) + Elems(tools[i].capabilities)
  {
    assert tools[..i + 1] == tools[..i] + [tools[i]];
    forall c | c in AllTags(tools[..i]) + Elems(tools[i].capabilities) ensures c in AllTags(tools[..i + 1]) {
      if c in Elems(tools[i].capabilities) {
        assert tools[i] in tools[..i + 1];
      } else {
        var t :| t in tools[..i] && c in t.capabilities;
        assert t in tools[..i + 1];
      }
    }
  }

  function Downstream(t: Tool): DownstreamTool
  {
    DownstreamTool(Cut(t.id).0, Cut(t.id).1, t, t.schema)
  }

  function DownstreamNames(tools: ToolMap): map<string, DownstreamTool>
  {
    map id | id in tools :: Downstream(tools[id])
  }

  // A registry holding nothing but imported tools.
  ghost predicate FromSources(tools: ToolMap)
  {
    && WellKeyed(tools)
    && forall id :: id in tools ==> FromSource(tools[id])
  }

  ghost predicate FromSource(t: Tool)
  {
    && t.capabilities != []
    && (forall k :: k in t.capabilities ==> Trimmed(k) && k != "")
    && exists source, name :: Safe(source) && t.id == ToolId(source, name)
  }

  lemma ConvertedIsFromSource(src: Source, d: ToolDescriptor)
    requires Converted(src, d).Some? && Safe(src.name) && src.name != ""
    ensures FromSource(Converted(src, d).value)
    ensures Converted(src, d).value.id == ToolId(src.name, d.name)
  {
    InferredAreNormal(d.name, src.extraCapabilities);
    SafeIsNormal(src.name);
  }

  lemma ConvertedAllFromSource(src: Source, ds: seq<ToolDescriptor>)
    requires Safe(src.name) && src.name != ""
    ensures forall t :: t in ConvertedAll(src, ds) ==> FromSource(t)
  {
    forall k | 0 <= k < |ConvertedAll(src, ds)| ensures FromSource(ConvertedAll(src, ds)[k]) {
      ConvertedIsFromSource(src, ds[k]);
    }
  }

  lemma {:induction false} ImportsAreFromSources(cfgs: seq<SourceConfig>)
    ensures FromSources(ImportAll(cfgs).tools)
  {
    if cfgs != [] {
      var init, cfg := cfgs[..|cfgs| - 1], cfgs[|cfgs| - 1];
      ImportsAreFromSources(init);
      if Reached(cfg) {
        SafeNameIsSafe(cfg.name);
        var ts := ConvertedAll(SourceOf(cfg), cfg.listing.value);
        ConvertedAllFromSource(SourceOf(cfg), cfg.listing.value);
        LoadKeepsTools(ImportAll(init).tools, ts);
      }
    }
  }

  // What the bridge of these sources serves: every imported tool under its registry ID, and a
  // resolver that knows every tag of every tool.
  ghost function Serving(cfgs: seq<SourceConfig>, size: int, threshold: int): Config
  {
    var tools := ImportAll(cfgs).tools;
    Config(tools, DownstreamNames(tools), SortedSet(AllTags(SelectSorted(tools, tools.Keys))),
      if size <= 0 then 10 else size, if threshold <= 0 then 3 else threshold)
  }

  // Reads the configuration's sources and builds the bridge that serves them, in the cold phase.
  method Start(cfgs: seq<SourceConfig>, size: int, threshold: int) returns (b: Bridge, manager: Manager)
    ensures fresh(b) && fresh(b.resolver) && b.Valid() && b.State() == INITIAL && b.out == []
    ensures Consistent(b.Settings())
    ensures b.Settings() == Serving(cfgs, size, threshold)
    ensures manager.clients == ImportAll(cfgs).clients && manager.timeout == 30
  {
    var reg;
    reg, manager := ImportSources(cfgs);
    var allTools := reg.All();
    var allCaps := CollectCapabilities(allTools);
    var resolver := new DeferredResolver(allCaps, size, threshold);
    b := new Bridge(reg, resolver);
    NamesOfAll(reg.tools);
    RegisterDownstream(b, allTools);
    ImportsAreFromSources(cfgs);
    SortedSetIsSorted(AllTags(allTools));
    AscendingIsDistinct(allCaps);
    SortedArrangement(allCaps, resolver.allCapabilities);
    AllTagsKnown(reg.tools, allTools, resolver.allCapabilities);
  }

  lemma AllTagsKnown(tools: ToolMap, allTools: seq<Tool>, all: seq<string>)
    requires WellKeyed(tools) && allTools == SelectSorted(tools, tools.Keys)
    requires multiset(all) == multiset(SortedSet(AllTags(allTools)))
    ensures forall id, k :: id in tools && k in tools[id].capabilities ==> k in all
  {
    SelectSortedFacts(tools, tools.Keys);
    SortedSetIsSorted(AllTags(allTools));
    SameElements(all, SortedSet(AllTags(allTools)));
    forall id, k | id in tools && k in tools[id].capabilities ensures k in all {
      assert tools[id] in allTools;
      assert k in AllTags(allTools);
      assert k in Elems(all);
    }
  }

  // What is served always meets the assumptions of the session results.
  lemma ServingIsConsistent(cfgs: seq<SourceConfig>, size: int, threshold: int)
    ensures Consistent(Serving(cfgs, size, threshold))
  {
    var c := Serving(cfgs, size, threshold);
    ImportsAreFromSources(cfgs);
    AllTagsKnown(c.tools, SelectSorted(c.tools, c.tools.Keys), c.all);
    assert c.names.Keys == c.tools.Keys;
  }

  function NamesOf(ts: seq<Tool>): map<string, DownstreamTool>
  {
    if ts == [] then map[] else
      var last := ts[|ts| - 1];
      NamesOf(ts[..|ts| - 1])[last.id := Downstream(last)]
  }

  lemma {:induction false} NamesOfFacts(tools: ToolMap, ts: seq<Tool>)
    requires forall t: Tool :: t in ts ==> t.id in tools && tools[t.id] == t
    ensures NamesOf(ts).Keys == Elems(ToolIds(ts))
    ensures forall id :: id in NamesOf(ts) ==> id in tools && NamesOf(ts)[id] == Downstream(tools[id])
  {
    if ts != [] {
      var init, last := ts[..|ts| - 1], ts[|ts| - 1];
      NamesOfFacts(tools, init);
      assert ToolIds(ts) == ToolIds(init) + [last.id];
      assert NamesOf(ts) == NamesOf(init)[last.id := Downstream(last)];
      assert last in ts && tools[last.id] == last;
    }
  }

  lemma SameNames(tools: ToolMap, names: map<string, DownstreamTool>)
    requires names.Keys == tools.Keys && forall id :: id in names ==> names[id] == Downstream(tools[id])
    ensures names == DownstreamNames(tools)
  {
  }

  lemma NamesOfAll(tools: ToolMap)
    requires WellKeyed(tools)
    ensures NamesOf(SelectSorted(tools, tools.Keys)) == DownstreamNames(tools)
  {
    var ts := SelectSorted(tools, tools.Keys);
    SelectSortedFacts(tools, tools.Keys);
    SortedSetIsSorted(tools.Keys);
    forall t: Tool | t in ts ensures t.id in tools && tools[t.id] == t {
    }
    NamesOfFacts(tools, ts);
    SameNames(tools, NamesOf(ts));
  }

  method RegisterDownstream(b: Bridge, tools: seq<Tool>)
    requires b.Valid() && b.tools == map[]
    modifies b`tools
    ensures b.Valid() && b.tools == NamesOf(tools)
  {
    for i := 0 to |tools|
      invariant b.Valid() && b.tools == NamesOf(tools[..i])
    {
      var source, toolName := SplitToolId(tools[i].id);
      b.RegisterTool(source, toolName, tools[i]);
      assert tools[..i + 1][..i] == tools[..i];
    }
    assert tools[..|tools|] == tools;
  }

  // ---- Routing ----------------------------------------------------------------------

  // No two sources that are reached share a safe name.
  ghost predicate DistinctSources(cfgs: seq<SourceConfig>)
  {
    forall i, j :: 0 <= i < j < |cfgs| && Reached(cfgs[i]) && Reached(cfgs[j]) ==>
      SafeName(cfgs[i].name) != SafeName(cfgs[j].name)
  }

  lemma {:induction false} LoadHasIds(tools: ToolMap, ts: seq<Tool>)
    ensures Load(tools, ts).Keys == tools.Keys + Elems(ToolIds(ts))
  {
    if ts != [] {
      var init, last := ts[..|ts| - 1], ts[|ts| - 1];
      LoadHasIds(tools, init);
      assert ToolIds(ts) == ToolIds(init) + [last.id];
    }
  }

  lemma ConvertedListed(src: Source, ds: seq<ToolDescriptor>, k: nat)
    requires k < |ds| && forall m :: 0 <= m <= k ==> Named(ds[m])
    ensures Converted(src, ds[k]).value in ConvertedAll(src, ds)
  {
    assert k < FirstBlank(ds, 0);
    assert ConvertedAll(src, ds)[k] == Converted(src, ds[k]).value;
  }

  // One more source keeps earlier IDs, and earlier clients when its name is another one.
  lemma ImportKeeps(st: Imported, cfg: SourceConfig, id: string, source: string)
    requires id in st.tools
    ensures id in ImportOne(st, cfg).tools
    ensures source in st.clients && (Reached(cfg) ==> source != SafeName(cfg.name)) ==>
              source in ImportOne(st, cfg).clients && ImportOne(st, cfg).clients[source] == st.clients[source]
  {
    if Reached(cfg) {
      LoadHasIds(st.tools, ConvertedAll(SourceOf(cfg), cfg.listing.value));
    }
  }

  lemma {:induction false} SourceSurvives(cfgs: seq<SourceConfig>, i: nat, id: string)
    requires DistinctSources(cfgs) && i < |cfgs| && Reached(cfgs[i])
    requires id in Load(map[], ConvertedAll(SourceOf(cfgs[i]), cfgs[i].listing.value))
    ensures id in ImportAll(cfgs).tools
    ensures cfgs[i].kind.Stdio? ==>
              SafeName(cfgs[i].name) in ImportAll(cfgs).clients &&
              ImportAll(cfgs).clients[SafeName(cfgs[i].name)] == cfgs[i].client
  {
    var init, last := cfgs[..|cfgs| - 1], cfgs[|cfgs| - 1];
    if i == |cfgs| - 1 {
      var ts := ConvertedAll(SourceOf(cfgs[i]), cfgs[i].listing.value);
      LoadHasIds(map[], ts);
      LoadHasIds(ImportAll(init).tools, ts);
    } else {
      SourceSurvives(init, i, id);
      ImportKeeps(ImportAll(init), last, id, SafeName(cfgs[i].name));
    }
  }

  // Where a call of a listed name is forwarded; None when the name is unknown or there is no client
  // at all, so that the bridge was given no forwarder.
  function Routed(names: map<string, DownstreamTool>, clients: map<string, Client>, timeout: int,
                  name: string, args: string): Option<Forwarded>
  {
    if name in names && clients != map[] then
      Some(Forward(clients, timeout, names[name].sourceName, names[name].toolName, args))
    else None
  }

  // With distinct safe names, the tool imported from a stdio source under a descriptor's name is
  // listed under its ID and called on that source's own client by exactly that name.
  lemma CallsReachTheirSource(cfgs: seq<SourceConfig>, i: nat, k: nat, timeout: int, args: string)
    requires DistinctSources(cfgs) && i < |cfgs| && Reached(cfgs[i]) && cfgs[i].kind.Stdio?
    requires k < |cfgs[i].listing.value|
    requires forall m :: 0 <= m <= k ==> Named(cfgs[i].listing.value[m])
    ensures var source, name := SafeName(cfgs[i].name), cfgs[i].listing.value[k].name;
            var st := ImportAll(cfgs);
            && ToolId(source, name) in st.tools
            && Routed(DownstreamNames(st.tools), st.clients, timeout, ToolId(source, name), args) ==
               Some(Sent(cfgs[i].client, name, args, timeout))
  {
    var src, ds := SourceOf(cfgs[i]), cfgs[i].listing.value;
    var source, name := SafeName(cfgs[i].name), ds[k].name;
    SafeNameIsSafe(cfgs[i].name);
    ConvertedListed(src, ds, k);
    var t := Converted(src, ds[k]).value;
    ConvertedIsFromSource(src, ds[k]);
    LoadHasIds(map[], ConvertedAll(src, ds));
    IdOfMember(ConvertedAll(src, ds));
    assert t.id in Elems(ToolIds(ConvertedAll(src, ds)));
    SourceSurvives(cfgs, i, t.id);
    ImportsAreFromSources(cfgs);
    CutUndoesToolId(source, name);
  }

  // One tools/call from end to end, in the order of the source: observe, announce, forward, respond.
  // answers is what each client replies.
  method ServeCall(b: Bridge, manager: Manager, name: string, args: string, answers: Forwarded -> Reply)
    returns (sent: Option<Forwarded>)
    requires b.Valid()
    modifies b`out, b.resolver`window
    ensures b.Valid() && b.Settings() == old(b.Settings())
    ensures sent == Routed(b.tools, manager.clients, manager.timeout, name, args)
    ensures var step := Call(name, if sent.Some? then answers(sent.value) else NoForwarder);
            && b.State() == Next(b.Settings(), old(b.State()), step)
            && b.out == old(b.out) + Emitted(b.Settings(), old(b.State()), step)
  {
    sent := None;
    if name !in b.tools {
      b.HandleToolsCall(name, NoForwarder);
      return;
    }
    var reply := NoForwarder;
    b.Announce(name);
    if manager.clients != map[] {
      var r := manager.Call(b.tools[name].sourceName, b.tools[name].toolName, args);
      sent, reply := Some(r), answers(r);
    }
    b.Respond(name, reply);
  }

  // In any session of the started bridge, a call of an imported tool is answered with what its
  // source's own client replies to that tool.
  lemma ImportedCallIsAnswered(cfgs: seq<SourceConfig>, i: nat, k: nat, size: int, threshold: int,
                               s: Session, args: string, reply: Reply)
    requires DistinctSources(cfgs) && i < |cfgs| && Reached(cfgs[i]) && cfgs[i].kind.Stdio?
    requires k < |cfgs[i].listing.value|
    requires forall m :: 0 <= m <= k ==> Named(cfgs[i].listing.value[m])
    ensures var source, name := SafeName(cfgs[i].name), cfgs[i].listing.value[k].name;
            var c := Serving(cfgs, size, threshold);
            var out := Emitted(c, s, Call(ToolId(source, name), reply));
            && Routed(c.names, ImportAll(cfgs).clients, 30, ToolId(source, name), args) ==
               Some(Sent(cfgs[i].client, name, args, 30))
            && out != [] && out[|out| - 1] == Called(source, name, reply)
  {
    var source, name := SafeName(cfgs[i].name), cfgs[i].listing.value[k].name;
    CallsReachTheirSource(cfgs, i, k, 30, args);
    SafeNameIsSafe(cfgs[i].name);
    ImportedUnderItsId(cfgs, ToolId(source, name));
    CutUndoesToolId(source, name);
    KnownCallIsAnswered(Serving(cfgs, size, threshold), s, ToolId(source, name), reply);
  }

  // And until the surface narrows the tool is on every listing, under the ID it is called by.
  lemma ImportedToolIsListed(cfgs: seq<SourceConfig>, i: nat, k: nat, size: int, threshold: int, s: Session)
    requires DistinctSources(cfgs) && i < |cfgs| && Reached(cfgs[i]) && cfgs[i].kind.Stdio?
    requires k < |cfgs[i].listing.value|
    requires forall m :: 0 <= m <= k ==> Named(cfgs[i].listing.value[m])
    requires !Narrowed(Serving(cfgs, size, threshold), s.window)
    ensures var out := Emitted(Serving(cfgs, size, threshold), s, List);
            && |out| == 1 && out[0].ToolsListed?
            && ToolId(SafeName(cfgs[i].name), cfgs[i].listing.value[k].name) in ListedNames(out[0].tools)
  {
    CallsReachTheirSource(cfgs, i, k, 30, "");
    ServingIsConsistent(cfgs, size, threshold);
    ColdListingNamesAll(Serving(cfgs, size, threshold), s);
  }

  lemma KnownCallIsAnswered(c: Config, s: Session, name: string, reply: Reply)
    requires name in c.names
    ensures var out := Emitted(c, s, Call(name, reply));
            out != [] && out[|out| - 1] == Called(c.names[name].sourceName, c.names[name].toolName, reply)
  {
  }

  lemma ImportedUnderItsId(cfgs: seq<SourceConfig>, id: string)
    requires id in ImportAll(cfgs).tools
    ensures id in DownstreamNames(ImportAll(cfgs).tools)
    ensures DownstreamNames(ImportAll(cfgs).tools)[id].sourceName == Cut(id).0
    ensures DownstreamNames(ImportAll(cfgs).tools)[id].toolName == Cut(id).1
  {
    ImportsAreFromSources(cfgs);
  }

  // ---- A change that is not announced -------------------------------------------------

  // One source with two tools of one tag each, a window of one observation, narrowing at once.
  const TWO_TOOL_SOURCE := SourceConfig("s", Stdio, "", [], Client(0),
    Some([ToolDescriptor("aa", "", None), ToolDescriptor("bb", "", None)]))
  const TOOL_A := StdioTool("aa")
  const TOOL_B := StdioTool("bb")

  function StdioTool(x: string): Tool
  {
    Tool(ToolId("s", x), "stdio", "stdio://" + "s" + "/" + x, "tools/call", map[], NoAuth, "30s", [x], [], [], false)
  }

  // Names of at least two lower-case letters.
  predicate Plain(x: string)
  {
    |x| >= 2 && forall i :: 0 <= i < |x| ==> 'a' <= x[i] <= 'z'
  }

  lemma PlainIsNormal(x: string)
    requires Plain(x)
    ensures Lower(x) == x && Trim(x) == x && Norm(x) == x
  {
    TrimmedIsFixed(x);
    assert forall i :: 0 <= i < |x| ==> LowerChar(x[i]) == x[i];
    assert Lower(x) == x;
  }

  lemma PlainObserved(x: string)
    requires Plain(x)
    ensures Observations([x]) == [x]
  {
    PlainIsNormal(x);
    assert [x][..0] == [];
  }

  // One that is no verb is its own only tag.
  lemma PlainInferred(x: string)
    requires Plain(x) && Synonym(x) == {}
    ensures SortedSet(InferredTags(x, [])) == [x]
  {
    PlainRuns(x);
    PlainIsNormal(x);
    OneToken(x);
    assert InferredTags(x, []) == Elems([x]);
    AscendingIsSortedSet([x]);
  }

  lemma PlainRuns(x: string)
    requires Plain(x)
    ensures Runs("", Lower(x)) == [x]
  {
    PlainIsNormal(x);
    RunsPlain("", x);
    assert "" + x == x;
  }

  lemma NoVerb(x: string)
    requires x == "aa" || x == "bb"
    ensures Plain(x) && Synonym(x) == {}
  {
  }

  lemma TwoToolsConverted()
    ensures Reached(TWO_TOOL_SOURCE)
    ensures ConvertedAll(SourceOf(TWO_TOOL_SOURCE), TWO_TOOL_SOURCE.listing.value) == [TOOL_A, TOOL_B]
  {
    SafeNameFixedIff("s");
    var src, ds := SourceOf(TWO_TOOL_SOURCE), TWO_TOOL_SOURCE.listing.value;
    NoVerb("aa");
    NoVerb("bb");
    ToolConverted(src, "aa");
    ToolConverted(src, "bb");
    AllOfTwo(src, ds);
  }

  lemma AllOfTwo(src: Source, ds: seq<ToolDescriptor>)
    requires |ds| == 2 && Named(ds[0]) && Named(ds[1])
    ensures ConvertedAll(src, ds) == [Converted(src, ds[0]).value, Converted(src, ds[1]).value]
  {
    assert FirstBlank(ds, 0) == 2;
  }

  lemma ToolConverted(src: Source, x: string)
    requires src == Source("s", "", "stdio", []) && Plain(x) && Synonym(x) == {}
    ensures Converted(src, ToolDescriptor(x, "", None)) == Some(StdioTool(x))
  {
    var d := ToolDescriptor(x, "", None);
    PlainIsNormal(x);
    PlainIsNormal("stdio");
    OwnTagOnly(src, d);
    StdioConverted(src, d);
  }

  lemma OwnTagOnly(src: Source, d: ToolDescriptor)
    requires Plain(d.name) && Synonym(d.name) == {} && src.extraCapabilities == []
    ensures ToolCapabilities(src, d) == [d.name]
  {
    PlainInferred(d.name);
  }

  lemma StdioConverted(src: Source, d: ToolDescriptor)
    requires Named(d) && Lower(src.typ) == "stdio"
    ensures Converted(src, d) ==
            Some(Tool(ToolId(src.name, d.name), "stdio", "stdio://" + src.name + "/" + d.name, "tools/call",
              CompactOf(d.inputSchema), NoAuth, "30s", ToolCapabilities(src, d), [], [], false))
  {
  }

  lemma LoadTwo(t: Tool, u: Tool)
    ensures Load(map[], [t, u]) == map[t.id := t][u.id := u]
  {
    assert [t, u][..1] == [t] && [t][..0] == [];
    assert Load(map[], [t]) == map[t.id := t];
  }

  lemma ImportOfOne(cfg: SourceConfig)
    requires Reached(cfg)
    ensures ImportAll([cfg]).tools == Load(map[], ConvertedAll(SourceOf(cfg), cfg.listing.value))
  {
    assert [cfg][..0] == [];
  }

  lemma TwoToolsImported()
    ensures HoldsTwo(ImportAll([TWO_TOOL_SOURCE]).tools, TOOL_A, TOOL_B)
  {
    TwoToolsConverted();
    ImportOfOne(TWO_TOOL_SOURCE);
    LoadTwo(TOOL_A, TOOL_B);
    assert TOOL_A.id[2] != TOOL_B.id[2];
  }

  ghost predicate HoldsTwo(tools: ToolMap, t: Tool, u: Tool)
  {
    t.id != u.id && tools.Keys == {t.id, u.id} && tools[t.id] == t && tools[u.id] == u
  }

  // Of two tools with one tag each, the one carrying the observed tag is shown alone.
  lemma SoleCarrier(c: Config, t: Tool, u: Tool, x: string, y: string)
    requires c.threshold == 1 && HoldsTwo(c.tools, t, u)
    requires Plain(x) && Plain(y) && x != y && t.capabilities == [x] && u.capabilities == [y]
    ensures Surface(c, [x]) == [t]
  {
    PlainIsNormal(x);
    PlainIsNormal(y);
    forall id | id in c.tools
      ensures (exists k :: k in c.tools[id].capabilities && Lower(k) in [x]) <==> id == t.id {
      assert c.tools[id].capabilities[0] in c.tools[id].capabilities;
    }
    OnlyTool(c, [x], t);
  }

  // With a window of one, a call of such a tool leaves its tag alone in the window.
  lemma WindowOfOne(c: Config, window: seq<string>, name: string, x: string, reply: Reply)
    requires c.size == 1 && name in c.names && c.names[name].tool.capabilities == [x] && Plain(x)
    ensures NextWindow(c, window, Call(name, reply)) == [x]
  {
    PlainObserved(x);
    assert (window + [x])[|window|..] == [x];
  }

  lemma CallThenList(c: Config, name: string, x: string, t: Tool, reply: Reply) returns (s: Session)
    requires c.size == 1 && name in c.names && c.names[name].tool.capabilities == [x] && Plain(x)
    requires c.threshold == 1 && Surface(c, [x]) == [t]
    ensures s == Run(c, INITIAL, [Call(name, reply), List]) == Session([x], 1)
  {
    var a := Call(name, reply);
    assert [a, List][..1] == [a] && [a][..0] == [];
    WindowOfOne(c, [], name, x, reply);
    var s1 := Run(c, INITIAL, [a]);
    assert Run(c, INITIAL, []) == Session([], 0);
    assert s1 == Next(c, Session([], 0), a);
    assert s1 == Session([x], 0);
    assert [x] + [] == [x];
    assert ResolveNow(c, [x]).Some?;
    s := Next(c, s1, List);
  }

  lemma MissedChange(c: Config, t: Tool, u: Tool, x: string, y: string, first: Reply, second: Reply)
    requires HoldsTwo(c.tools, t, u) && c.size == 1 && c.threshold == 1
    requires {t.id, u.id} <= c.names.Keys && c.names[t.id].tool == t && c.names[u.id].tool == u
    requires Plain(x) && Plain(y) && x != y && t.capabilities == [x] && u.capabilities == [y]
    ensures Missed(c, t.id, u.id, first, second)
  {
    SoleCarrier(c, t, u, x, y);
    SoleCarrier(c, u, t, y, x);
    var s := CallThenList(c, t.id, x, t, first);
    WindowOfOne(c, s.window, u.id, y, second);
    CallEmits(c, s, u.id, second);
  }

  // A call of one tool and a listing narrow the surface, then a call of another tool changes it
  // and the client is not told.
  ghost predicate Missed(c: Config, one: string, other: string, first: Reply, second: Reply)
  {
    var s := Run(c, INITIAL, [Call(one, first), List]);
    && Narrowed(c, s.window)
    && Surface(c, Next(c, s, Call(other, second)).window) != Surface(c, s.window)
    && ListChanged !in Emitted(c, s, Call(other, second))
  }

  // After a narrowed listing only the counts decide: here, in a session from the start of the
  // bridge, the surface moves from one tool to another unannounced.
  lemma NarrowedListingCanMissAChange(first: Reply, second: Reply)
    ensures Missed(Serving([TWO_TOOL_SOURCE], 1, 1), "s.aa", "s.bb", first, second)
  {
    TwoTools();
    ServingTwoTools();
    MissedChange(Serving([TWO_TOOL_SOURCE], 1, 1), TOOL_A, TOOL_B, "aa", "bb", first, second);
  }

  lemma ServingTwoTools()
    ensures var c := Serving([TWO_TOOL_SOURCE], 1, 1);
            && c.size == 1 && c.threshold == 1 && HoldsTwo(c.tools, TOOL_A, TOOL_B)
            && {TOOL_A.id, TOOL_B.id} <= c.names.Keys
            && c.names[TOOL_A.id].tool == TOOL_A && c.names[TOOL_B.id].tool == TOOL_B
  {
    TwoToolsImported();
    ServingNames([TWO_TOOL_SOURCE], 1, 1, TOOL_A.id);
    ServingNames([TWO_TOOL_SOURCE], 1, 1, TOOL_B.id);
  }

  lemma ServingNames(cfgs: seq<SourceConfig>, size: int, threshold: int, id: string)
    requires id in ImportAll(cfgs).tools
    ensures id in Serving(cfgs, size, threshold).names
    ensures Serving(cfgs, size, threshold).names[id].tool == ImportAll(cfgs).tools[id]
  {
  }

  lemma TwoTools()
    ensures TOOL_A.id == "s.aa" && TOOL_B.id == "s.bb" && Plain("aa") && Plain("bb")
    ensures TOOL_A.capabilities == ["aa"] && TOOL_B.capabilities == ["bb"] && "aa" != "bb"
  {
    assert "aa"[0] != "bb"[0];
  }
}
