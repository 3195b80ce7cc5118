// Whole runs of the bridge: what the window remembers, what is listed, when clients are told.

module Sessions {
  import opened Order
  import Graph
  import opened Text
  import opened Manifest
  import opened Registry
  import opened Schema
  import opened Deferred
  import opened Bridge

  const INITIAL := Session([], 0)

  ghost function Run(c: Config, s: Session, steps: seq<Step>): Session
  {
    if steps == [] then s else
      Next(c, Run(c, s, steps[..|steps| - 1]), steps[|steps| - 1])
  }

  // The nonblank normalised observations since the last reset.
  function History(c: Config, steps: seq<Step>): seq<string>
  {
    if steps == [] then [] else
      var last := steps[|steps| - 1];
      if last.Reset? then [] else History(c, steps[..|steps| - 1]) + ObservedBy(c, last)
  }

  ghost predicate Narrowed(c: Config, window: seq<string>)
  {
    |window| >= c.threshold
  }

  // ---- The window -------------------------------------------------------------------

  // In every run the window is the last min(k, W) of the k observations since the last reset.
  lemma {:induction false} WindowIsRecentHistory(c: Config, steps: seq<Step>)
    ensures Run(c, INITIAL, steps).window == LastOf(History(c, steps), c.size)
  {
    if steps != [] {
      var init, last := steps[..|steps| - 1], steps[|steps| - 1];
      WindowIsRecentHistory(c, init);
      LastOfLastOf(History(c, init), ObservedBy(c, last), c.size);
    }
  }

  lemma NarrowedIff(c: Config, steps: seq<Step>)
    ensures Narrowed(c, Run(c, INITIAL, steps).window) <==>
            |History(c, steps)| >= c.threshold && c.size >= c.threshold
  {
    WindowIsRecentHistory(c, steps);
  }

  // Once narrowed, the surface stays narrowed until a reset.
  lemma {:induction false} StaysNarrowed(c: Config, steps: seq<Step>, more: seq<Step>)
    requires Narrowed(c, Run(c, INITIAL, steps).window)
    requires forall i :: 0 <= i < |more| ==> !more[i].Reset?
    ensures Narrowed(c, Run(c, INITIAL, steps + more).window)
  {
    NarrowedIff(c, steps);
    NarrowedIff(c, steps + more);
    HistoryGrows(c, steps, more);
  }

  lemma {:induction false} HistoryGrows(c: Config, steps: seq<Step>, more: seq<Step>)
    requires forall i :: 0 <= i < |more| ==> !more[i].Reset?
    ensures History(c, steps) <= History(c, steps + more)
  {
    if more == [] {
      assert steps + more == steps;
    } else {
      var init := more[..|more| - 1];
      HistoryGrows(c, steps, init);
      assert (steps + more)[..|steps + more| - 1] == steps + init;
    }
  }

  lemma {:induction false} ObservationsNormal(caps: seq<string>)
    ensures forall w :: w in Observations(caps) ==> w != "" && Norm(w) == w
  {
    if caps != [] {
      ObservationsNormal(caps[..|caps| - 1]);
      NormIdempotent(caps[|caps| - 1]);
    }
  }

  lemma {:induction false} HistoryNormal(c: Config, steps: seq<Step>)
    ensures forall w :: w in History(c, steps) ==> w != "" && Norm(w) == w
  {
    if steps != [] {
      var init, last := steps[..|steps| - 1], steps[|steps| - 1];
      HistoryNormal(c, init);
      match last {
        case Call(name, _) => if name in c.names { ObservationsNormal(c.names[name].tool.capabilities); }
        case Observe(cap) => NormIdempotent(cap);
        case _ =>
      }
    }
  }

  ghost predicate NormalWindow(window: seq<string>)
  {
    forall w :: w in window ==> w != "" && Norm(w) == w
  }

  lemma WindowNormal(c: Config, steps: seq<Step>)
    ensures NormalWindow(Run(c, INITIAL, steps).window)
  {
    WindowIsRecentHistory(c, steps);
    HistoryNormal(c, steps);
    var h := History(c, steps);
    forall w | w in LastOf(h, c.size) ensures w in h {
    }
  }

  // ---- The surface ------------------------------------------------------------------

  // When narrowed, a listing is exactly the ID-ordered, repetition-free set of tools carrying a
  // capability of the window.
  lemma NarrowedSurface(c: Config, window: seq<string>)
    requires c.threshold > 0 && WellKeyed(c.tools)
    requires NormalWindow(window) && Narrowed(c, window)
    ensures Ascending(ToolIds(Surface(c, window)))
    ensures forall t: Tool :: t in Surface(c, window) <==>
              t.id in c.tools && c.tools[t.id] == t && exists k :: k in t.capabilities && Lower(k) in window
  {
    var wanted := NarrowedResolves(c, window);
    LookupExact(c.tools, wanted);
    forall t: Tool | t.id in c.tools && c.tools[t.id] == t
      ensures (exists k, w :: k in t.capabilities && w in wanted && Norm(w) != "" && Lower(k) == Norm(w)) <==>
              (exists k :: k in t.capabilities && Lower(k) in window) {
      WantedInWindow(t, window, wanted);
    }
  }

  lemma NarrowedResolves(c: Config, window: seq<string>) returns (wanted: seq<string>)
    requires c.threshold > 0 && Narrowed(c, window)
    ensures Elems(wanted) == Elems(window) && Surface(c, window) == LookupResult(c.tools, wanted)
  {
    var caps := ResolvedSet(c.all, window, c.threshold, "", [], None);
    assert caps == Elems(window);
    assert window[0] in caps;
    wanted := SortedSet(caps);
    SortedSetIsSorted(caps);
  }

  lemma WantedInWindow(t: Tool, window: seq<string>, wanted: seq<string>)
    requires NormalWindow(window) && Elems(wanted) == Elems(window)
    ensures (exists k, w :: k in t.capabilities && w in wanted && Norm(w) != "" && Lower(k) == Norm(w)) <==>
            (exists k :: k in t.capabilities && Lower(k) in window)
  {
    assert forall w :: w in wanted <==> w in Elems(wanted);
    assert forall w :: w in window <==> w in Elems(window);
    if k :| k in t.capabilities && Lower(k) in window {
      assert Lower(k) in wanted && Norm(Lower(k)) == Lower(k);
    }
  }

  // The startup of acp-bridge: the resolver knows every tag of every tool, downstream names are
  // the registered IDs, and tags are trimmed and nonblank, as the importer leaves them.
  ghost predicate Consistent(c: Config)
  {
    && WellKeyed(c.tools)
    && c.size > 0 && c.threshold > 0
    && c.names.Keys == c.tools.Keys
    && (forall id :: id in c.tools ==> c.names[id].tool == c.tools[id] && c.tools[id].capabilities != [])
    && (forall id, k :: id in c.tools && k in c.tools[id].capabilities ==> Trimmed(k) && k != "" && k in c.all)
  }

  // Before narrowing, a listing shows every registered tool.
  lemma ColdStartListsAll(c: Config, window: seq<string>)
    requires Consistent(c) && !Narrowed(c, window)
    ensures Surface(c, window) == SelectSorted(c.tools, c.tools.Keys)
  {
    var caps := ResolvedSet(c.all, window, c.threshold, "", [], None);
    assert caps == Elems(c.all);
    if caps == {} {
      assert forall id :: id in c.tools ==> c.tools[id].capabilities[0] in Elems(c.all);
      assert c.tools.Keys == {};
      SortedSetIsSorted({});
    } else {
      SortedSetIsSorted(caps);
      forall id | id in c.tools ensures Carries(c.tools[id], NormSet(SortedSet(caps))) {
        var k := c.tools[id].capabilities[0];
        NormOfTrimmed(k);
        assert k in Elems(SortedSet(caps));
        assert Norm(k) in NormSet(SortedSet(caps));
      }
      assert MatchingIds(c.tools, NormSet(SortedSet(caps))) == c.tools.Keys;
    }
  }

  // The tool just called is always on the surface.
  lemma JustCalledIsListed(c: Config, steps: seq<Step>, name: string, reply: Reply)
    requires Consistent(c) && name in c.names
    ensures c.tools[name] in Surface(c, Run(c, INITIAL, steps + [Call(name, reply)]).window)
  {
    var all := steps + [Call(name, reply)];
    var window := Run(c, INITIAL, all).window;
    var t := c.tools[name];
    if Narrowed(c, window) {
      WindowNormal(c, all);
      WindowIsRecentHistory(c, all);
      var k := t.capabilities[|t.capabilities| - 1];
      NormOfTrimmed(k);
      assert all[..|all| - 1] == steps;
      var h := History(c, all);
      assert h == History(c, steps) + Observations(t.capabilities);
      assert h[|h| - 1] == Norm(k);
      assert window[|window| - 1] == Norm(k);
      NarrowedSurface(c, window);
    } else {
      ColdStartListsAll(c, window);
      SelectSortedFacts(c.tools, c.tools.Keys);
    }
  }

  // ---- The listing message ----------------------------------------------------------

  function ListedNames(tools: seq<McpTool>): seq<string>
  {
    seq(|tools|, i requires 0 <= i < |tools| => tools[i].name)
  }

  // A listing answers with one message that names the tools of the surface, by ID, in order and
  // once each.
  lemma ListingNamesSurface(c: Config, s: Session)
    requires WellKeyed(c.tools)
    ensures var out := Emitted(c, s, List);
            && |out| == 1 && out[0].ToolsListed?
            && ListedNames(out[0].tools) == ToolIds(Surface(c, s.window))
            && Ascending(ListedNames(out[0].tools))
  {
    SurfaceInRegistry(c, s.window);
    var ids :| ids <= c.tools.Keys && Surface(c, s.window) == SelectSorted(c.tools, ids);
    SelectSortedFacts(c.tools, ids);
    var out := Emitted(c, s, List);
    assert |out[0].tools| == |Surface(c, s.window)|;
  }

  // Before narrowing these are the IDs of all registered tools.
  lemma ColdListingNamesAll(c: Config, s: Session)
    requires Consistent(c) && !Narrowed(c, s.window)
    ensures |Emitted(c, s, List)| == 1 && Emitted(c, s, List)[0].ToolsListed?
    ensures forall name :: name in ListedNames(Emitted(c, s, List)[0].tools) <==> name in c.tools
  {
    ListingNamesSurface(c, s);
    ColdStartListsAll(c, s.window);
    SelectSortedFacts(c.tools, c.tools.Keys);
    SortedSetIsSorted(c.tools.Keys);
    var names := ListedNames(Emitted(c, s, List)[0].tools);
    assert forall name :: name in names <==> name in Elems(names);
  }

  // A call is refused exactly when no registered tool has that ID.
  lemma RefusedIffUnknown(c: Config, s: Session, name: string, reply: Reply)
    requires Consistent(c)
    ensures UnknownTool(name) in Emitted(c, s, Call(name, reply)) <==> name !in c.tools.Keys
    ensures name !in c.tools.Keys ==> Emitted(c, s, Call(name, reply)) == [UnknownTool(name)]
  {
  }

  // Whatever was listed can be called, then and later.
  lemma ListedIsCallable(c: Config, s: Session, name: string, later: Session, reply: Reply)
    requires Consistent(c)
    requires Emitted(c, s, List)[0].ToolsListed? && name in ListedNames(Emitted(c, s, List)[0].tools)
    ensures name in c.names
    ensures forall m :: m in Emitted(c, later, Call(name, reply)) ==> !m.UnknownTool?
  {
    ListedIsKnown(c, s, name);
    assert name in c.tools.Keys;
  }

  lemma ListedIsKnown(c: Config, s: Session, name: string)
    requires WellKeyed(c.tools)
    requires Emitted(c, s, List)[0].ToolsListed? && name in ListedNames(Emitted(c, s, List)[0].tools)
    ensures name in c.tools
  {
    ListingNamesSurface(c, s);
    SurfaceInRegistry(c, s.window);
    var ids :| ids <= c.tools.Keys && Surface(c, s.window) == SelectSorted(c.tools, ids);
    SelectSortedFacts(c.tools, ids);
    SortedSetIsSorted(ids);
    assert name in Elems(SortedSet(ids));
  }

  // A listed tool is described by its ID and shown with the properties it declared, as far as the
  // notation carries them.
  lemma ListedToolShown(c: Config, s: Session, k: nat, js: JsonSchema, name: string)
    requires k < |Surface(c, s.window)| && Surface(c, s.window)[k].schema == CompactSchemaOf(js)
    requires name in js.props
    ensures Emitted(c, s, List)[0].ToolsListed? && k < |Emitted(c, s, List)[0].tools|
    ensures var m := Emitted(c, s, List)[0].tools[k];
            && m.description == "[ACP-compacted] " + m.name
            && name in m.properties
            && (m.properties[name] == Declared(js.props[name]) <==>
                ScalarTree(js.props[name]) ||
                (BarFreeEnum(js.props[name]) && !(name in js.required && LooksOptional(js.props[name]))))
            && (name in m.required <==> name in js.required && !LooksOptional(js.props[name]))
  {
    var t := Surface(c, s.window)[k];
    ImportedSchemaShown(js, t, name);
    assert Emitted(c, s, List)[0].tools[k] == McpToolOf(t);
  }

  // ---- Notifications ----------------------------------------------------------------

  lemma {:induction false} ListingIsRemembered(c: Config, s: Session, steps: seq<Step>)
    requires forall i :: 0 <= i < |steps| ==> !steps[i].List?
    ensures Run(c, s, steps).prevToolCount == s.prevToolCount
  {
    if steps != [] {
      ListingIsRemembered(c, s, steps[..|steps| - 1]);
    }
  }

  lemma SurfaceInRegistry(c: Config, window: seq<string>)
    requires WellKeyed(c.tools)
    ensures exists ids :: ids <= c.tools.Keys && Surface(c, window) == SelectSorted(c.tools, ids)
  {
    if ResolveNow(c, window).None? {
      SortedSetIsSorted({});
      assert Surface(c, window) == SelectSorted(c.tools, {});
    } else {
      var ids := MatchingIds(c.tools, NormSet(ResolveNow(c, window).value));
      assert Surface(c, window) == SelectSorted(c.tools, ids);
    }
  }

  lemma SameCountIsAll(c: Config, window: seq<string>)
    requires WellKeyed(c.tools)
    ensures |Surface(c, window)| == |c.tools| <==> Surface(c, window) == SelectSorted(c.tools, c.tools.Keys)
  {
    SurfaceInRegistry(c, window);
    var ids :| ids <= c.tools.Keys && Surface(c, window) == SelectSorted(c.tools, ids);
    SelectSortedFacts(c.tools, ids);
    SelectSortedFacts(c.tools, c.tools.Keys);
    Graph.SubsetCardinality(ids, c.tools.Keys);
    assert |c.tools.Keys| == |c.tools|;
  }

  lemma SurfaceResolves(c: Config, window: seq<string>)
    requires Consistent(c) && c.tools.Keys != {}
    ensures ResolveNow(c, window).Some?
  {
    var caps := ResolvedSet(c.all, window, c.threshold, "", [], None);
    if |window| < c.threshold {
      var id :| id in c.tools;
      assert c.tools[id].capabilities[0] in Elems(c.all);
      assert caps != {};
    } else {
      assert window[0] in caps;
    }
  }

  lemma CallEmits(c: Config, s: Session, name: string, reply: Reply)
    requires name in c.names
    ensures ListChanged in Emitted(c, s, Call(name, reply)) <==>
            Notifies(c, Next(c, s, Call(name, reply)).window, s.prevToolCount)
  {
  }

  lemma NotifiesIffShrunk(c: Config, window: seq<string>)
    requires Consistent(c) && c.tools.Keys != {}
    ensures Notifies(c, window, |c.tools|) <==> Surface(c, window) != SelectSorted(c.tools, c.tools.Keys)
  {
    SurfaceResolves(c, window);
    SameCountIsAll(c, window);
    assert |c.tools| == |c.tools.Keys|;
  }

  lemma ColdListingCounts(c: Config, before: Session)
    requires Consistent(c) && c.tools.Keys != {} && !Narrowed(c, before.window)
    ensures Next(c, before, List).prevToolCount == |c.tools|
  {
    ColdStartListsAll(c, before.window);
    SurfaceResolves(c, before.window);
    SelectSortedFacts(c.tools, c.tools.Keys);
  }

  // If the client's last listing was a cold-start one, a call tells it to list again exactly when
  // the surface is no longer the one it saw: a smaller surface cannot have the same count.
  lemma NotifiedIffChanged(c: Config, before: Session, between: seq<Step>, name: string, reply: Reply)
    requires Consistent(c) && name in c.names && !Narrowed(c, before.window)
    requires forall i :: 0 <= i < |between| ==> !between[i].List?
    ensures var seen := Surface(c, before.window);
            var s := Run(c, Next(c, before, List), between);
            var now := Surface(c, Next(c, s, Call(name, reply)).window);
            ListChanged in Emitted(c, s, Call(name, reply)) <==> now != seen
  {
    var s := Run(c, Next(c, before, List), between);
    assert name in c.tools.Keys;
    ColdStartListsAll(c, before.window);
    ColdListingCounts(c, before);
    ListingIsRemembered(c, Next(c, before, List), between);
    CallEmits(c, s, name, reply);
    NotifiesIffShrunk(c, Next(c, s, Call(name, reply)).window);
  }

  // After any listing that reached the client, a call announces a change exactly when the size of
  // the surface differs from a nonzero listed size.
  lemma NotifiedIffCountDiffers(c: Config, before: Session, between: seq<Step>, name: string, reply: Reply)
    requires Consistent(c) && name in c.names
    requires forall i :: 0 <= i < |between| ==> !between[i].List?
    ensures var seen := Surface(c, before.window);
            var s := Run(c, Next(c, before, List), between);
            var now := Surface(c, Next(c, s, Call(name, reply)).window);
            ListChanged in Emitted(c, s, Call(name, reply)) <==> |seen| > 0 && |now| != |seen|
    ensures var seen := Surface(c, before.window);
            var s := Run(c, Next(c, before, List), between);
            var now := Surface(c, Next(c, s, Call(name, reply)).window);
            (ListChanged in Emitted(c, s, Call(name, reply)) <==> now != seen) <==>
            (now == seen || (|seen| > 0 && |now| != |seen|))
  {
    var s := Run(c, Next(c, before, List), between);
    assert name in c.tools.Keys;
    SurfaceResolves(c, before.window);
    ListingIsRemembered(c, Next(c, before, List), between);
    CallEmits(c, s, name, reply);
    SurfaceResolves(c, Next(c, s, Call(name, reply)).window);
  }

  lemma OnlyTool(c: Config, window: seq<string>, t: Tool)
    requires c.threshold == 1 && WellKeyed(c.tools) && NormalWindow(window) && |window| == 1
    requires t.id in c.tools && c.tools[t.id] == t
    requires forall id :: id in c.tools ==>
               ((exists k :: k in c.tools[id].capabilities && Lower(k) in window) <==> id == t.id)
    ensures Surface(c, window) == [t]
  {
    NarrowedSurface(c, window);
    var r := Surface(c, window);
    forall u | u in r ensures u == t {
      assert c.tools[u.id] == u;
    }
    OneAscending(r, t);
  }

  lemma OneAscending(r: seq<Tool>, t: Tool)
    requires Ascending(ToolIds(r)) && t in r && forall u :: u in r ==> u == t
    ensures r == [t]
  {
    var ids := ToolIds(r);
    forall i | 0 <= i < |r| ensures ids[i] == t.id {
      assert r[i] in r;
    }
    AscendingIsDistinct(ids);
    DistinctCardinality(ids);
    assert Elems(ids) <= {t.id};
    Graph.SubsetCardinality(Elems(ids), {t.id});
  }
}
