// internal/bridge: the MCP bridge as a state machine over its window and last listing.

module Bridge {
  import opened Manifest
  import opened Registry
  import opened Schema
  import opened Deferred

  datatype DownstreamTool = DownstreamTool(sourceName: string, toolName: string, tool: Tool,
                                           rawSchema: map<string, string>)

  // What the forwarder answers to a call; NoForwarder stands for a nil Forwarder.
  datatype Reply = Answer(raw: string) | Failure(err: string) | NoForwarder

  datatype Message =
    | ToolsListed(tools: seq<McpTool>)
    | ListChanged
    | UnknownTool(name: string)
    | Called(source: string, tool: string, reply: Reply)

  // Everything fixed once the bridge serves: registry, downstream names, resolver settings.
  datatype Config = Config(tools: ToolMap, names: map<string, DownstreamTool>, all: seq<string>,
                           size: nat, threshold: nat)

  datatype Session = Session(window: seq<string>, prevToolCount: nat)

  datatype Step =
    | List
    | Call(name: string, reply: Reply)
    | Observe(cap: string)
    | Reset

  // ---- One step ---------------------------------------------------------------------

  ghost function ResolveNow(c: Config, window: seq<string>): Option<seq<string>>
  {
    Resolved(ResolvedSet(c.all, window, c.threshold, "", [], None))
  }

  // The tools a listing would show.
  ghost function Surface(c: Config, window: seq<string>): seq<Tool>
  {
    match ResolveNow(c, window)
    case None => []
    case Some(caps) => LookupResult(c.tools, caps)
  }

  function ObservedBy(c: Config, step: Step): seq<string>
  {
    match step
    case Call(name, _) => if name in c.names then Observations(c.names[name].tool.capabilities) else []
    case Observe(cap) => Observation(cap)
    case _ => []
  }

  function NextWindow(c: Config, window: seq<string>, step: Step): seq<string>
  {
    if step.Reset? then [] else LastOf(window + ObservedBy(c, step), c.size)
  }

  ghost function Next(c: Config, s: Session, step: Step): Session
  {
    Session(NextWindow(c, s.window, step),
      if step.List? && ResolveNow(c, s.window).Some? then |Surface(c, s.window)| else s.prevToolCount)
  }

  // maybeNotifyListChanged compares counts, and only after a nonempty listing.
  ghost predicate Notifies(c: Config, window: seq<string>, prevToolCount: nat)
  {
    ResolveNow(c, window).Some? && |Surface(c, window)| != prevToolCount && prevToolCount > 0
  }

  ghost function McpTools(ts: seq<Tool>): seq<McpTool>
  {
    seq(|ts|, i requires 0 <= i < |ts| => McpToolOf(ts[i]))
  }

  ghost function Announced(c: Config, s: Session, name: string): seq<Message>
  {
    if Notifies(c, NextWindow(c, s.window, Call(name, NoForwarder)), s.prevToolCount) then [ListChanged] else []
  }

  ghost function Emitted(c: Config, s: Session, step: Step): seq<Message>
  {
    match step
    case List => [ToolsListed(McpTools(Surface(c, s.window)))]
    case Call(name, reply) =>
      if name !in c.names then [UnknownTool(name)]
      else
        Announced(c, s, name) + [Called(c.names[name].sourceName, c.names[name].toolName, reply)]
    case _ => []
  }

  lemma ObserveNext(window: seq<string>, caps: seq<string>, i: nat, size: nat)
    requires i < |caps|
    ensures LastOf(LastOf(window + Observations(caps[..i]), size) + Observation(caps[i]), size) ==
            LastOf(window + Observations(caps[..i + 1]), size)
  {
    LastOfLastOf(window + Observations(caps[..i]), Observation(caps[i]), size);
    assert caps[..i + 1][..i] == caps[..i];
    assert window + Observations(caps[..i]) + Observation(caps[i]) == window + Observations(caps[..i + 1]);
  }

  // ---- The bridge object ------------------------------------------------------------

  class Bridge {
    const reg: MemoryRegistry
    const resolver: DeferredResolver
    var tools: map<string, DownstreamTool>
    var prevToolCount: nat
    var out: seq<Message>

    ghost predicate Valid()
      reads this, reg, resolver
    {
      reg.Valid() && resolver.Valid()
    }

    ghost function Settings(): Config
      reads this, reg, resolver
    {
      Config(reg.tools, tools, resolver.allCapabilities, resolver.windowSize, resolver.narrowThreshold)
    }

    ghost function State(): Session
      reads this, resolver
    {
      Session(resolver.window, prevToolCount)
    }

    constructor (reg: MemoryRegistry, resolver: DeferredResolver)
      requires reg.Valid() && resolver.Valid()
      ensures Valid() && this.reg == reg && this.resolver == resolver
      ensures tools == map[] && prevToolCount == 0 && out == []
    {
      this.reg, this.resolver := reg, resolver;
      tools, prevToolCount, out := map[], 0, [];
    }

    method RegisterTool(sourceName: string, mcpToolName: string, tool: Tool)
      requires Valid()
      modifies this`tools
      ensures Valid()
      ensures tools == old(tools)[tool.id := DownstreamTool(sourceName, mcpToolName, tool, tool.schema)]
    {
      tools := tools[tool.id := DownstreamTool(sourceName, mcpToolName, tool, tool.schema)];
    }

    method HandleToolsList()
      requires Valid()
      modifies this`prevToolCount, this`out
      ensures Valid() && Settings() == old(Settings())
      ensures State() == Next(Settings(), old(State()), List)
      ensures out == old(out) + Emitted(Settings(), old(State()), List)
    {
      ghost var listing := McpTools(Surface(Settings(), resolver.window));
      assert Emitted(Settings(), State(), List) == [ToolsListed(listing)];
      var caps := resolver.Resolve("", [], None);
      if caps.None? {
        assert listing == [];
        out := out + [ToolsListed([])];
        return;
      }
      var matched := reg.Lookup(caps.value);
      var listed: seq<McpTool> := [];
      for i := 0 to |matched|
        invariant out == old(out)
        invariant listed == McpTools(matched[..i])
      {
        var tool := ToolToMcp(matched[i]);
        listed := listed + [tool];
        assert matched[..i + 1] == matched[..i] + [matched[i]];
      }
      assert matched[..|matched|] == matched;
      assert matched == Surface(Settings(), resolver.window);
      assert listed == listing;
      prevToolCount := |listed|;
      out := out + [ToolsListed(listed)];
    }

    method HandleToolsCall(name: string, reply: Reply)
      requires Valid()
      modifies this`out, resolver`window
      ensures Valid() && Settings() == old(Settings())
      ensures State() == Next(Settings(), old(State()), Call(name, reply))
      ensures out == old(out) + Emitted(Settings(), old(State()), Call(name, reply))
    {
      if name !in tools {
        assert old(resolver.window) + [] == old(resolver.window);
        out := out + [UnknownTool(name)];
        return;
      }
      Announce(name);
      Respond(name, reply);
    }

    // What happens before the call is forwarded: its tags are observed, a changed surface announced.
    method Announce(name: string)
      requires Valid() && name in tools
      modifies this`out, resolver`window
      ensures Valid() && Settings() == old(Settings())
      ensures State() == Next(Settings(), old(State()), Call(name, NoForwarder))
      ensures out == old(out) + Announced(Settings(), old(State()), name)
    {
      ObserveAll(tools[name].tool.capabilities);
      MaybeNotifyListChanged();
    }

    // What happens once the forwarder has replied.
    method Respond(name: string, reply: Reply)
      requires Valid() && name in tools
      modifies this`out
      ensures out == old(out) + [Called(tools[name].sourceName, tools[name].toolName, reply)]
    {
      out := out + [Called(tools[name].sourceName, tools[name].toolName, reply)];
    }

    method ObserveAll(caps: seq<string>)
      requires Valid()
      modifies resolver`window
      ensures Valid()
      ensures resolver.window == LastOf(old(resolver.window) + Observations(caps), resolver.windowSize)
    {
      assert old(resolver.window) + [] == old(resolver.window);
      for i := 0 to |caps|
        invariant Valid()
        invariant resolver.window == LastOf(old(resolver.window) + Observations(caps[..i]), resolver.windowSize)
      {
        resolver.Observe(caps[i]);
        ObserveNext(old(resolver.window), caps, i, resolver.windowSize);
      }
      assert caps[..|caps|] == caps;
    }

    method MaybeNotifyListChanged()
      requires Valid()
      modifies this`out
      ensures Valid()
      ensures out == old(out) +
                if Notifies(Settings(), resolver.window, prevToolCount) then [ListChanged] else []
    {
      var caps := resolver.Resolve("", [], None);
      if caps.None? {
        return;
      }
      var matched := reg.Lookup(caps.value);
      if |matched| != prevToolCount && prevToolCount > 0 {
        out := out + [ListChanged];
      }
    }
  }
}
