# Verified model of agent-native-format

A Dafny 4.11 model of the Agent Native Format repository: the Go server, bridge and translators and
the Python adapters that consume its manifests, with proofs of what they promise. Verify with
`dafny verify dfyconfig.toml`.

## What is modelled

1. **Execution order.** `Builder` turns looked-up tools into actions with `depends_on`; `Ordering`
   schedules them with counters, child lists and a first-in first-out queue; `LangGraph` builds the
   START..END graph. `Schedule` gives the order as a function of the dependency graph and `Graph`
   holds cycles, walks and depths. `Chains` says which order it is before anything runs: the actions
   sorted by their greatest dependency chain, chains being compared by length and then by id
   (`Chains.OrderIffSortedByKey`). `Pipeline` and `Seed` join producer and consumers: a built manifest
   schedules exactly when its tools' needs are acyclic, which the seed table's always are.
2. **The deferred-intent bridge.** `Deferred` and `Bridge` are the objects; `Sessions` is about every
   run of listing, calling, observing and resetting. `Importer`, `Naming` and `Startup` cover how
   downstream tools get their tags, IDs and client, so that the assumptions of `Sessions` are
   discharged by `Startup.Start`. `Stdio` matches answers to requests when earlier requests timed out.
3. **The schema mini-language.** `Schema` has the printer, the Go parser and the Python parser.
4. **ANF.** `Encoder` prints documents, `Layout` reads their lines back and `Reading` the fields;
   `Translate` and `Leaves` cover the generic JSON translation, `Kubernetes` and `Reports` the rules
   for health, alerts and operations, `Numbers` the decimal printer.
5. **Server and proxy.** `Gateway` is the step relation of building, storing and executing and says
   what a forwarded call proves about the past; `Decisions` says when a request is refused and that
   an emitted manifest can be executed; `Headers` is the rewrite of a forwarded request's headers.

`Order`, `Text`, `Manifest`, `Anf` and `Registry` are shared ground. Objects that the sources update
in place are classes (`MemoryRegistry`, `DeferredResolver`, `Bridge`, `StateGraph`, `StringBuilder`,
`MemoryStore`, `Manager`, `StdioClient`); loops are loops, each proved equal to a function about
which the lemmas speak. Iteration over a Go map takes its keys in any order. Library sorts promise
an ordered permutation and nothing about ties.

## Where the code and its documentation differ

The model follows the code.

- The deferred resolver's comments describe a warm phase that returns observed capabilities with a
  margin; below the threshold the code returns all capabilities
  (internal/resolver/deferred.go:147-151), as `Deferred.DeferredResolver.Resolve` and
  `Sessions.ColdStartListsAll` say.
- `maybeNotifyListChanged` is documented to detect a changed surface, but compares counts. After a
  cold-start listing that is the same thing (`Sessions.NotifiedIffChanged`); after a narrowed one it
  is not (`Startup.NarrowedListingCanMissAChange`).
- `compactToJSONSchema` is called the inverse of the compaction. It is, exactly on the fields named
  by `Schema.RequiredRoundTrip` and `Schema.OptionalRoundTrip`; arrays of enums are not among them.
- `build_graph` need not lead from START through every action to END. `topological_order` treats an
  action whose dependencies are all outside the manifest as ready, but only actions without any
  dependency are attached to START. And where an id is repeated, the scheduler goes by its last action
  but the edges by all of them, so that a cycle can be left without a way to END
  (`LangGraph.RepeatedIdCanTrap`). `LangGraph.ThreadedIffNoTrap` says for every manifest when it hangs
  together, `LangGraph.ThreadedIffAnchored` when the edges have no cycle. `Build` emits neither
  repeated ids nor dangling dependencies, and its manifests are fine (`Pipeline.BuiltGraphIsThreaded`).
- `topological_order` says it breaks ties by action id. What it goes by is the greatest dependency
  chain behind an action, and the id only where these agree (`Chains.SmallerIdFirstIff`). The promise
  holds exactly when no action overtakes another: whenever the one with the smaller id has the greater
  chain, it waits for something that does not come before the other (`Chains.TiesBreakByIdIff`).
  `Ordering.TieBreakCanFail` is a manifest of four actions where it fails.
- `itoa` prints "-" for the least 64-bit integer (`Numbers.ItoaReadsBack`).

## Model

| member | source | states |
|---|---|---|
| Ordering.TopologicalOrder | adapters/python/acp_common/__init__.py:239-268 | the loops over counters, child lists and queue, repeated and dangling dependencies included, return the set-based schedule or the cycle error with all ids |
| Ordering.CountDependencies | adapters/python/acp_common/__init__.py:248-255 | each action's counter is its number of in-manifest entries with repetition, and each child list holds the action once per entry |
| Ordering.ReleaseChildren | adapters/python/acp_common/__init__.py:262-265 | going through sorted children with repetition releases exactly the exhausted ones, ascending and once each |
| Ordering.ReturnsIffAcyclic | adapters/python/acp_common/__init__.py:259-268 | it returns exactly when the in-manifest dependencies have no cycle, and raises exactly when one exists |
| Ordering.ReturnedOrderIsValid | adapters/python/acp_common/__init__.py:257-268 | every id of the manifest once, each an input action, every in-manifest dependency earlier |
| Ordering.ReturnedOrderIsLayered | adapters/python/acp_common/__init__.py:257-265 | every action has a longest dependency chain and the lengths never drop along the order |
| Schedule.QueueSpansTwoDepths | adapters/python/acp_common/__init__.py:257-265 | a queued action is as deep as the queue's head or one deeper, in every state with the loop invariant, hence by SoundStart and SoundStep in every reachable one |
| Schedule.SoundStart | adapters/python/acp_common/__init__.py:257-258 | the loop invariant holds at the start |
| Schedule.SoundStep | adapters/python/acp_common/__init__.py:259-265 | one turn of the loop keeps the invariant that the queue is the ready frontier, dependencies come first and everything is in canonical order |
| Schedule.CompleteIffAcyclic | adapters/python/acp_common/__init__.py:266-267 | the count test at the end fails exactly on a cyclic graph |
| Schedule.OrderIsByDepth | adapters/python/acp_common/__init__.py:257-265 | the schedule is in nondecreasing depth |
| Schedule.OrderIsCanonical | adapters/python/acp_common/__init__.py:257-265 | actions come in the order of their last-scheduled dependency, and of ids where that is the same |
| Schedule.OrderIffCanonical | adapters/python/acp_common/__init__.py:257-268 | of an acyclic graph the schedule is the one arrangement with dependencies first and in canonical order |
| Chains.RunsFirstIff | adapters/python/acp_common/__init__.py:257-265 | an action of an acyclic graph runs before another exactly when its greatest dependency chain comes first |
| Chains.OrderIffSortedByKey | adapters/python/acp_common/__init__.py:257-268 | the order of an acyclic graph is its nodes sorted by their greatest dependency chains, and no other sequence is |
| Chains.KeyUnfolds | adapters/python/acp_common/__init__.py:250-265 | a greatest chain is the greatest one among the dependencies, followed by the node |
| Chains.SourceKey | adapters/python/acp_common/__init__.py:257 | the greatest chain of an action without dependencies is the action alone |
| Chains.BeforeIsShortlex | adapters/python/acp_common/__init__.py:257-265 | chains are compared by length, then by id at the first difference |
| Chains.SmallerIdFirstIff | adapters/python/acp_common/__init__.py:257-265 | of two actions the one with the smaller id runs first exactly when the chain behind it does not come after the chain behind the other |
| Chains.TiesBreakByIdIff | adapters/python/acp_common/__init__.py:242 | every pick has the least id of all ready actions exactly when, for all actions, one with a smaller id and a greater chain than another waits for something whose chain does not come before the other's |
| Ordering.ReturnedIffCanonical | adapters/python/acp_common/__init__.py:239-268 | the returned ids are exactly the canonical arrangement of the manifest |
| Ordering.ReturnedInKeyOrder | adapters/python/acp_common/__init__.py:239-268 | the returned ids are in the order of greatest dependency chains, and ties break by id exactly when no action of the manifest overtakes another |
| Ordering.TieBreakCanFail | adapters/python/acp_common/__init__.py:242 | a, b, z after a and y after b come back as a, b, z, y, although y and z are ready together |
| Order.LtIsTextBefore | adapters/python/acp_common/__init__.py:257 | ids, and all sorted text, are compared as text: a proper prefix first, else by the smaller character where two first differ |
| Ordering.IndependentInTextOrder | adapters/python/acp_common/__init__.py:257-265 | of two actions that depend on nothing in the manifest the one whose id comes first as text runs first, so a1, a10, a2 |
| Graph.StuckHasCycle | adapters/python/acp_common/__init__.py:266-267 | a set in which every node waits for another member contains a cycle |
| Ordering.PermutationInvariant | adapters/python/acp_common/__init__.py:245-265 | permuting distinct actions never changes the result |
| Ordering.DependencyListInvariant | adapters/python/acp_common/__init__.py:250-265 | reordering or repeating entries of any depends_on never changes the order or the error |
| LangGraph.BuildGraph | adapters/python/acp_langgraph/__init__.py:106-129 | nodes are the scheduled actions in order and edges are exactly the dependency, START and END edges |
| LangGraph.InnerEdgesAreDependencies | adapters/python/acp_langgraph/__init__.py:115-121 | edges between actions are the in-manifest dependency pairs and nothing else |
| LangGraph.ThreadedIffNoTrap | adapters/python/acp_langgraph/__init__.py:115-127 | for every manifest: each action is reachable from START and reaches END exactly when no ids all wait, in the manifest for one another only, and none are all waited for by one another only |
| LangGraph.ThreadedIffAnchored | adapters/python/acp_langgraph/__init__.py:115-127 | when the dependencies of all actions of an id together have no cycle: exactly when for every id the last action has no dependency or some action has one in the manifest |
| LangGraph.ReachesEnd | adapters/python/acp_langgraph/__init__.py:125-127 | without such a cycle every id leads to END |
| LangGraph.ReachedFromStart | adapters/python/acp_langgraph/__init__.py:122-124 | without such a cycle and with every id anchored, START leads to every id |
| LangGraph.UnanchoredIsCutOff | adapters/python/acp_langgraph/__init__.py:122-124 | START never leads to an id whose last action has dependencies and none of whose actions has one in the manifest |
| LangGraph.RepeatedIdCanTrap | adapters/python/acp_langgraph/__init__.py:115-127 | a after b, b after a, then a after nothing: it schedules and is anchored, and nothing leads to END |
| LangGraph.MergedAcyclicSchedules | adapters/python/acp_langgraph/__init__.py:107-121 | without such a cycle the manifest schedules |
| LangGraph.MergedContains | adapters/python/acp_langgraph/__init__.py:115-121 | the edges between ids include the scheduled dependencies, and with distinct ids are just these |
| Builder.Build | internal/builder/builder.go:93-158 | the manifest or the no-match error, as a function of registry and capabilities, unaffected by map order or the repeated sort |
| Builder.IndexCapabilities | internal/builder/builder.go:105-113 | each lower-cased capability maps to the actions of the tools carrying it |
| Builder.DependsOnFor | internal/builder/builder.go:160-182 | the sorted set of other providers of the named capabilities |
| Builder.OwnDependencies | internal/builder/builder.go:119-130 | what the index yields for a tool is the set of other tools it needs |
| Builder.ActionIdInjective | internal/builder/builder.go:108 | generated action ids are distinct |
| Builder.NeedsIgnoresCase | internal/builder/builder.go:160-182 | one tool needs another exactly when a tag it names is a tag the other carries, letter by letter and ignoring case |
| Pipeline.DependsOnExact | internal/builder/builder.go:93-182 | action j is in action i's depends_on exactly when they differ and tool i names, ignoring case, a capability tool j carries |
| Pipeline.DependenciesInside | internal/builder/builder.go:160-182 | dependencies of a built manifest stay in it, sorted without repetition |
| Pipeline.BuiltActions | internal/builder/builder.go:119-130 | each looked-up tool gets one action, in order, with the tool's own type, method, endpoint, schema, authentication and timeout |
| Pipeline.BuiltSettings | internal/builder/builder.go:145-157 | version, lifetime, token limit, audit level and feedback endpoint are those configured, under the new ID |
| Pipeline.AdapterShowsTool | adapters/python/acp_common/__init__.py:218-233 | what an adapter shows of an action's scalar parameters, arrays of them included, is the type and the required mark its tool declared |
| Pipeline.SchedulableIffNeedsAcyclic | internal/builder/builder.go:93-182 | a built manifest schedules exactly when the relation of needs between its tools is acyclic |
| Pipeline.BuiltGraphIsThreaded | adapters/python/acp_langgraph/__init__.py:106-127 | the graph of any schedulable built manifest leads from START through every action to END |
| Seed.SeedRegistry | internal/registry/seed.go:23-91 | seeding succeeds and registers the five tools |
| Seed.FreshSeedIsSeeded | internal/registry/seed.go:23-91 | seeding an empty registry leaves only seed tools, each under its own ID |
| Seed.SeedNeedsDescend | internal/registry/seed.go:24-83 | every need among the seed tools points to an earlier stage |
| Seed.SeededManifestsSchedule | internal/registry/seed.go:23-91 | whatever is requested, a manifest built from the seeded registry schedules |
| Registry.MemoryRegistry.Register | internal/registry/registry.go:65-76 | a tool is stored under its ID unless the ID is blank or it has no tags |
| Registry.MemoryRegistry.Lookup | internal/registry/registry.go:92-112 | the ID-ordered tools carrying a wanted tag, whatever the map order |
| Registry.MemoryRegistry.All | internal/registry/registry.go:115-124 | every tool in ID order |
| Registry.NormalizeSet | internal/registry/registry.go:126-135 | the nonblank normal forms of the request |
| Text.TrimStrips | internal/registry/registry.go:126-135 | trimming takes white space off both ends and nothing else |
| Text.LowerIgnoresCase | internal/registry/registry.go:104 | comparing lower-case forms is comparing letter by letter, ignoring case |
| Registry.LookupExact | internal/registry/registry.go:92-112 | a lookup lists, ascending by ID and once each, exactly the tools with a tag matching a request |
| Registry.LoadLast | internal/registry/registry.go:65-76 | of tools registered under one ID the last stays |
| Deferred.DeferredResolver.constructor | internal/resolver/deferred.go:71-93 | defaults for nonpositive settings, an empty window and all capabilities sorted |
| Deferred.DeferredResolver.Observe | internal/resolver/deferred.go:97-108 | a nonblank observation enters the window, which keeps its last entries |
| Deferred.DeferredResolver.Resolve | internal/resolver/deferred.go:131-177 | hints with all capabilities below the threshold, with the window and the fallback's answer from it on, sorted, or the error when empty |
| Deferred.HintsAlwaysHonoured | internal/resolver/deferred.go:134-140 | every nonblank hint is in the answer in any phase |
| Deferred.ResolvedIff | internal/resolver/deferred.go:131-177 | a capability is in the answer exactly as a hint, as any known one below the threshold, and from it on as one of the window or, with an intent, of the fallback's answer |
| Deferred.ObservationsExact | internal/resolver/deferred.go:97-108 | a call observes every nonblank tag of the tool, in order and in normal form |
| Bridge.Bridge.HandleToolsList | internal/bridge/bridge.go:192-222 | the listing message and the remembered count are those of the step function |
| Bridge.Bridge.HandleToolsCall | internal/bridge/bridge.go:229-283 | observing, the possible notification and the routed reply, in that order |
| Bridge.Bridge.MaybeNotifyListChanged | internal/bridge/bridge.go:287-301 | a notification exactly when the surface's size differs from a nonzero remembered one |
| Sessions.WindowIsRecentHistory | internal/resolver/deferred.go:97-124 | in every run the window is the last min(k, W) observations since the last reset |
| Sessions.NarrowedIff | internal/resolver/deferred.go:147-155 | narrowed exactly from the N-th observation since a reset, and never when N exceeds W |
| Sessions.StaysNarrowed | internal/resolver/deferred.go:147-155 | once narrowed the surface stays so until a reset |
| Sessions.NarrowedSurface | internal/bridge/bridge.go:192-222 | a narrowed listing is exactly the ID-ordered, repetition-free set of tools with a capability in the window |
| Sessions.JustCalledIsListed | internal/bridge/bridge.go:245-251 | after a call the called tool is on the surface |
| Sessions.ColdStartListsAll | cmd/acp-bridge/main.go:183-202 | before narrowing a listing shows every registered tool |
| Sessions.ListingNamesSurface | internal/bridge/bridge.go:192-222 | a listing is one message that names the tools of the surface by ID, in order and once each |
| Sessions.ColdListingNamesAll | internal/bridge/bridge.go:192-222 | before narrowing the listed names are exactly the registered IDs |
| Sessions.ListedIsCallable | internal/bridge/bridge.go:229-243 | whatever was listed is never answered as unknown, then or later |
| Sessions.RefusedIffUnknown | internal/bridge/bridge.go:236-243 | a call is refused, by its name, exactly when no registered tool has that ID |
| Sessions.ListedToolShown | internal/bridge/bridge.go:305-332 | a listed tool is described by its ID and shows its declared properties as far as the notation carries them |
| Sessions.NotifiedIffChanged | internal/bridge/bridge.go:287-301 | after a cold-start listing a call announces a change exactly when the surface differs from the one listed |
| Sessions.NotifiedIffCountDiffers | internal/bridge/bridge.go:298-300 | after any listing a call announces a change exactly when the size differs from a nonzero listed size; so it tells of a change exactly when there is none or the sizes differ |
| Startup.NarrowedListingCanMissAChange | internal/bridge/bridge.go:298-300 | a session of a bridge started on one source: after a call and a narrowed listing, a call of the other tool changes the surface and nothing is sent |
| Stdio.StdioClient.Request | internal/mcpclient/stdio.go:152-218 | one request is the run of its events up to its answer, deadline or failure; a result is a line with its id and no error, an RPC error the error of a line with its id, and each other outcome is met exactly when its cause is |
| Stdio.StdioClient.ReadAnswer | internal/mcpclient/stdio.go:161-177 | the next line is taken, and it is returned exactly when it is a response carrying the id in flight |
| Stdio.RequestExtendsRun | internal/mcpclient/stdio.go:152-218 | the state that one request computes is the state of the run so far, continued by the request's beginning and events |
| Stdio.LossesAreTimeouts | internal/mcpclient/stdio.go:161-218 | the lines lost to abandoned readers, the abandoned readers that failed and those still left behind are together as many as the timed-out requests |
| Stdio.LinesDelivered | internal/mcpclient/stdio.go:161-218 | every line taken was delivered or lost, and all but as many as there were timeouts are delivered or still to be read |
| Stdio.LinesAreConserved | internal/mcpclient/stdio.go:198-218 | lines are taken in the order written, each by one reader |
| Stdio.RunsAreOrderly | internal/mcpclient/stdio.go:152-178 | in every run answers carry their request's id, were read, and rise in id |
| Stdio.ReadDecides | internal/mcpclient/stdio.go:161-177 | the line that carries the id in flight is returned and ends the request, any other is passed over |
| Stdio.IdsNeverReused | internal/mcpclient/stdio.go:156 | a later request gets a larger id |
| Stdio.ReturnedLinesAreOwn | internal/mcpclient/stdio.go:161-177 | with any timeouts and abandoned readers, a returned line was written by the server and carries that request's id and no other's |
| Stdio.AnsweredOnceInOrder | internal/mcpclient/stdio.go:152-178 | no request is answered twice and answers come in request order |
| Naming.SafeSourceName | cmd/acp-bridge/main.go:339-356 | the loop with its flag computes the squashed and trimmed name |
| Naming.SafeNameIsSafe | cmd/acp-bridge/main.go:339-356 | lower-case letters, digits and single inner underscores only, so no dot |
| Naming.SafeNameFixedIff | cmd/acp-bridge/main.go:339-356 | the names left alone are exactly the safe ones |
| Naming.SafeNameIdempotent | cmd/acp-bridge/main.go:339-356 | applying it twice changes nothing |
| Naming.SafeNameIsJoined | cmd/acp-bridge/main.go:339-356 | a safe name is the runs of letters and digits of the trimmed lower-case name, joined by underscores |
| Naming.SplitToolId | cmd/acp-bridge/main.go:217-229 | the scan cuts at the first dot |
| Naming.CutUndoesToolId | cmd/acp-bridge/main.go:217-229 | the cut recovers the source and the original tool name, dots in it included |
| Naming.CutWithoutDot | cmd/acp-bridge/main.go:217-229 | without a dot both parts are the whole ID |
| Naming.ToolIdInjective | internal/sources/mcp/source.go:162-178 | distinct source and tool pairs get distinct IDs |
| Importer.Tokenize | internal/sources/mcp/source.go:223-242 | the runs between separators of the lower-cased name |
| Importer.RunsFacts | internal/sources/mcp/source.go:223-242 | tokens are nonempty, separator-free and together are the name without its separators |
| Importer.RunsPlain | internal/sources/mcp/source.go:223-242 | a stretch without separators is one token |
| Importer.RunsSplit | internal/sources/mcp/source.go:223-242 | a separator ends one token and begins the next |
| Importer.InferCapabilities | internal/sources/mcp/source.go:191-221 | the sorted set of extra tags, tokens and verb synonyms |
| Importer.InferredAreNormal | internal/sources/mcp/source.go:188-221 | inferred tags are ascending, trimmed, lower-case and at least two characters long |
| Importer.InferredExactly | internal/sources/mcp/source.go:191-221 | a tag is an extra tag or a token of at least two characters in normal form, or write or read for the verbs among the tokens, and nothing else |
| Importer.ToolTags | internal/sources/mcp/source.go:156-160 | a tool carries its inferred tags ascending, or its source's name when there are none |
| Importer.HttpToolConverted | internal/sources/mcp/source.go:172-186 | a tool imported over HTTP is called by POST below the base URL without trailing slashes and may reach exactly the host of that URL |
| Importer.Convert | internal/sources/mcp/source.go:152-186 | the registry tool of a descriptor, or the blank-name error |
| Importer.RegisterAll | internal/sources/mcp/source.go:135-148 | tools are registered up to the first descriptor that cannot be converted, and counted |
| Startup.Manager.Register | internal/mcpclient/stdio.go:274-285 | a client is stored under a nonblank source name |
| Startup.Manager.Call | internal/mcpclient/stdio.go:295-305 | tool name, arguments and deadline go to the client registered for the source, or the call fails when there is none |
| Startup.ImportSource | cmd/acp-bridge/main.go:160-181 | one source's client and tools are added, or nothing when it has no safe name or cannot be reached |
| Startup.SourceAdded | cmd/acp-bridge/main.go:160-181 | a source without a safe name, a listing or a needed URL is skipped; any other adds its tools' IDs, and its client when it is a process |
| Startup.HttpToolImported | internal/sources/mcp/source.go:172-186 | a tool of a configured HTTP source is called below that source's URL and may reach its host alone |
| Startup.ServingIsConsistent | cmd/acp-bridge/main.go:183-229 | whatever the sources, what is served meets the assumptions of the session results |
| Startup.Start | cmd/acp-bridge/main.go:153-229 | the served bridge is in its initial state and satisfies the consistency that the session results assume, for the settings that the sources determine |
| Startup.CallsReachTheirSource | internal/bridge/bridge.go:229-267 | with distinct safe names among the reached sources, a listed stdio tool is registered and forwarded to its own source's client under its original name |
| Startup.ServeCall | internal/bridge/bridge.go:229-283 | one call end to end: its tags are observed, a change announced, the call forwarded by the manager as the names say, and the reply sent |
| Startup.ImportedCallIsAnswered | internal/bridge/bridge.go:229-283 | in any session of the started bridge a call of an imported tool ends with the reply of its source's own client |
| Startup.ImportedToolIsListed | internal/bridge/bridge.go:192-222 | until the surface narrows an imported tool is on every listing under the ID it is called by |
| Schema.CompactSchema | internal/sources/mcp/source.go:247-263 | every property printed, marked optional when not required |
| Schema.ToolToMcp | internal/bridge/bridge.go:305-332 | every property expanded, required being the unmarked ones |
| Schema.ActionToJsonSchema | adapters/python/acp_common/__init__.py:218-233 | every property expanded by the Python parser, and the same required set as in Go |
| Schema.RequiredRoundTrip | internal/bridge/bridge.go:334-372 | for a required field, parsing what was printed gives the declared type exactly for scalars, nested arrays of scalars, and bar-free string enums whose last value does not end in the mark |
| Schema.OptionalRoundTrip | internal/bridge/bridge.go:334-372 | the same for an optional field, without the condition on the last value |
| Schema.PlainRoundTrip | internal/sources/mcp/source.go:279-308 | for fields that are not enums, at every array depth |
| Schema.CompactShape | internal/sources/mcp/source.go:279-308 | which printed fields start as an enum and which end in the optional mark |
| Schema.ImportedSchemaShown | internal/bridge/bridge.go:305-332 | what a client is shown of each imported property, and when it is listed as required |
| Schema.RequiredSetRebuilt | internal/bridge/bridge.go:310-325 | the required set is the declared one restricted to declared properties exactly when no required property looks optional |
| Schema.ParsersAgree | adapters/python/acp_common/__init__.py:196-215 | on text without white space the Go and Python parsers agree on the core type except for optional enums and arrays of references |
| Schema.AdapterShowsDeclared | adapters/python/acp_common/__init__.py:196-233 | the Python parser gives a scalar, or an array of them at any depth, its declared type, marked or not |
| Schema.Annotated | adapters/python/acp_common/__init__.py:186-216 | the notes beside the type: the format or encoding of bytes, that objects are open, what a reference refers to |
| Encoder.WriteEntity | pkg/anf/encoder.go:58-92 | appends the entity's line, property lines and children at their depths |
| Encoder.WriteAlert | pkg/anf/encoder.go:94-110 | appends the alert's line with its properties in key order |
| Encoder.WriteAction | pkg/anf/encoder.go:112-126 | appends the action's line with its parameters in key order |
| Encoder.WriteIndent | pkg/anf/encoder.go:128-132 | appends two spaces a level |
| Encoder.Encode | pkg/anf/encoder.go:11-49 | the document's text is its lines, sections set off by blank lines |
| Layout.LayoutRoundTrip | pkg/anf/encoder.go:58-92 | reading the printed entities by indentation rebuilds exactly the forest of lines |
| Layout.DocumentRoundTrip | pkg/anf/encoder.go:11-49 | from the text alone the marks give back header, alert and action lines in order and the rest reads back as the entities |
| Layout.SectionsInOrder | pkg/anf/encoder.go:11-49 | headers, entities, alerts and actions come in this order, with a blank line after the headers, before the alerts and before the actions, where there are any, and nowhere else |
| Reading.DocumentReadsBack | pkg/anf/encoder.go:11-126 | when the fields are words, headers, alerts and actions come back from the text field by field, and every entity's line, property lines and children say what the document says |
| Reading.HeadReadsBack | pkg/anf/encoder.go:58-75 | an entity's line gives back type, name, status and inline properties |
| Reading.PropReadsBack | pkg/anf/encoder.go:78-85 | a property line gives back key and value |
| Reading.HeaderReadsBack | pkg/anf/encoder.go:14-21 | a header line gives back key and value |
| Reading.AlertReadsBack | pkg/anf/encoder.go:94-110 | an alert's line gives back the alert, its properties included |
| Reading.ActionReadsBack | pkg/anf/encoder.go:112-126 | an action's line gives back the action, its parameters included |
| Translate.TranslateDocument | translators/generic/translate.go:38-79 | the document with its headers and entities, or the error, exactly when the input does not fit |
| Translate.EntityFromValue | translators/generic/translate.go:83-119 | the entity of a keyed value, or the error exactly when it nests too deep from this level |
| Translate.PartitionKeys | translators/generic/translate.go:123-134 | scalar-valued and container-valued keys, each ascending |
| Leaves.FailsIffTooDeep | translators/generic/translate.go:83-86 | translation fails exactly when some array element or container stands 513 steps below the document |
| Leaves.LeavesExact | translators/generic/translate.go:83-119 | the listing of leaves holds exactly the scalars found by following addresses |
| Leaves.TranslationPlaces | translators/generic/translate.go:83-119 | the properties of an entity tree are its leaves one for one, each under the path its keys name |
| Leaves.NothingDroppedNothingAdded | translators/generic/translate.go:33-79 | the document's properties are the input's scalars, each once, at their places, with no status or inline property anywhere |
| Leaves.ObjectFieldsInOrder | translators/generic/translate.go:88-101 | an object's properties and children are its scalar and container fields in strict key order |
| Leaves.LeafReadsBack | translators/generic/translate.go:171-190 | the text at every leaf stands for the very scalar that is there |
| Leaves.EntityNamed | translators/generic/translate.go:83-119 | an entity has its key's type and, for an object, the text under name or else id as its name |
| Leaves.TopEntityNamed | translators/generic/translate.go:42-76 | the document's own entity is named by the scope |
| Leaves.HeadersTell | translators/generic/translate.go:38-41 | the headers give source, time, translator and, if there is one, scope, each once |
| Kubernetes.DeriveAlerts | translators/kubernetes/translator.go:300-376 | a severity-ordered permutation of what the deployments and pods contribute |
| Kubernetes.DeriveActions | translators/kubernetes/translator.go:379-429 | the operations offered, deployment by deployment |
| Kubernetes.DeploymentStatus | translators/kubernetes/translator.go:433-449 | the health of a deployment |
| Kubernetes.HealthyIffQuiet | translators/kubernetes/translator.go:433-449 | healthy exactly when nothing critical or warning is contributed |
| Kubernetes.FailingIffCritical | translators/kubernetes/translator.go:433-436 | a deployment reports failing exactly when no replica is ready and it raises a critical alert of its own, whatever its pods raise |
| Kubernetes.PressingFirst | translators/kubernetes/translator.go:370-373 | critical and warning alerts precede all others, which report outdated images |
| Kubernetes.RolloutIffOutdated | translators/kubernetes/translator.go:394-404 | a rollout to an image is offered for a name exactly when permitted and that image is reported as newer for the name |
| Reports.MemoryReportedIff | translators/kubernetes/translator.go:304-313 | a deployment's memory is reported, with its number, exactly when above 80 percent |
| Reports.CpuReportedIff | translators/kubernetes/translator.go:314-323 | its CPU likewise |
| Reports.ReplicasReportedIff | translators/kubernetes/translator.go:325-332 | ready and wanted replicas are reported exactly when fewer are ready |
| Reports.ImageReportedIff | translators/kubernetes/translator.go:334-345 | both images are reported exactly when a newer one is known |
| Reports.RestartsReportedIff | translators/kubernetes/translator.go:348-357 | a pod's restarts are reported, with their number, exactly when above two |
| Reports.PodMemoryReportedIff | translators/kubernetes/translator.go:358-366 | a pod's memory is reported exactly when above 90 percent |
| Reports.SeverityOrder | translators/kubernetes/translator.go:370-373 | critical alerts precede warnings, and warnings reports |
| Reports.ScaleOfferedIff | translators/kubernetes/translator.go:383-393 | scaling from the present count is offered exactly where permitted |
| Reports.RestartOfferedIff | translators/kubernetes/translator.go:405-411 | restarting is offered for every deployment exactly where permitted |
| Reports.LogsOfferedIff | translators/kubernetes/translator.go:414-425 | logs are offered for every pod exactly where permitted |
| Reports.RolloutTells | translators/kubernetes/translator.go:394-404 | an offered rollout names its deployment's latest image and strategy |
| Reports.OfferedVerbs | translators/kubernetes/translator.go:379-429 | nothing else is offered |
| Numbers.Itoa | pkg/anf/types.go:114-134 | the 20-byte buffer is never overrun and holds the decimal text, or "-" for the least integer |
| Numbers.ItoaReadsBack | pkg/anf/types.go:114-134 | the text reads back to the number for every 64-bit integer but the least, and only for those |
| Numbers.DurationReadsBack | pkg/anf/types.go:101-112 | a printed duration reads back to the same seconds, with the same one exception |
| Numbers.DurationUnitIsLargest | pkg/anf/types.go:101-112 | the unit is the largest that divides a value at least that large |
| Gateway.MemoryStore.Put | internal/proxy/proxy.go:231-236 | a manifest is stored under its nonempty ID |
| Gateway.HandleContext | internal/server/server.go:133-160 | the refusals in order, and a built manifest stored before it is returned |
| Gateway.ServeExec | internal/proxy/proxy.go:128-217 | the sequence of decisions for an execution request |
| Gateway.FindAction | internal/proxy/proxy.go:260-267 | the first action with the id |
| Gateway.RequiresApproval | internal/proxy/proxy.go:269-276 | whether the action is on the approval list |
| Gateway.EgressAllowed | internal/proxy/proxy.go:278-289 | whether the host is on the egress list, ignoring case and port |
| Gateway.AllowsIffNamed | internal/proxy/proxy.go:278-289 | a host is admitted exactly when the list holds what stands before its first colon, ignoring case |
| Gateway.PortIsIgnored | internal/proxy/proxy.go:278-289 | a port makes no difference |
| Decisions.ContextDecided | internal/server/server.go:133-160 | which context request is refused for what, and that all others emit a manifest under the new ID |
| Decisions.PathDecided | internal/proxy/proxy.go:133-142 | which paths are not found and which are bad |
| Decisions.TargetDecided | internal/proxy/proxy.go:144-154 | a path that names both is refused exactly for a missing manifest or action |
| Decisions.CallDecided | internal/proxy/proxy.go:156-217 | a stored action's call is refused for approval, endpoint, host or credentials, in that order, and is otherwise forwarded to its endpoint's host |
| Decisions.EmittedIsStored | internal/server/server.go:145-161 | an emitted manifest is found under its ID and nothing else changes |
| Decisions.RegisteredIsKnown | internal/registry/registry.go:65-76 | a registered tool takes its namesake's place, unless its ID is blank or it has no capability |
| Decisions.EmittedActionRuns | internal/proxy/proxy.go:128-217 | every action of a manifest just emitted can be executed: with a host its own tool may reach, an approval where asked for and credentials, the call is forwarded |
| Decisions.SeededActionsMayRun | internal/registry/seed.go:23-91 | every action built from the seeded registry may call its own endpoint, port and all |
| Headers.RewriteHeaders | internal/proxy/proxy.go:186-195 | under every name stand the inbound values, unless it is one of the agent's credentials, followed by the injected ones, for every order of the map |
| Headers.CanonicalIgnoresCase | internal/proxy/proxy.go:186-195 | two header names are one exactly when they agree ignoring case |
| Headers.OthersAreKept | internal/proxy/proxy.go:186-195 | everything else the agent sent is forwarded, before what was injected under that name |
| Headers.AgentCredentialsGone | internal/proxy/proxy.go:186-188 | whatever is forwarded under a spelling of a dropped name was injected |
| Headers.InjectedMembers | internal/proxy/proxy.go:190-195 | what is added under a name is exactly the values of the credentials of that canonical name |
| Headers.InjectedExactly | internal/proxy/proxy.go:190-195 | a credential whose canonical name no other has is added as it was given, whatever the order |
| Gateway.ApprovalsExact | internal/builder/builder.go:134-136 | an action id is on the approval list exactly when its tool is marked |
| Gateway.AllowedIffReached | internal/builder/builder.go:131-143 | the egress list admits a host exactly when one of the manifest's tools may reach it |
| Gateway.RunsAreAccounted | internal/server/server.go:145-161 | in every run the store holds only manifests built in that run, under their own IDs |
| Gateway.BuiltDuringRun | internal/server/server.go:145-161 | each such manifest comes from a context step and the registry as it was then |
| Gateway.ForwardedIsJustified | internal/proxy/proxy.go:138-217 | in every run a forwarded call goes to the endpoint of an action of a manifest built earlier, to a host one of its tools may reach, and approved when its own tool was marked |
| Gateway.PassedIsForwarded | internal/proxy/proxy.go:138-217 | a call that passes the checks on a stored action is forwarded |

## Left out

- HTTP, JSON and process plumbing, logging, tracing, flags, files, environment expansion and the editor configuration import: input and output, or library behaviour. A decoded value is where the model starts.
- Unicode: text is compared, lower-cased and trimmed as ASCII, and `safeSourceName` knows ASCII letters and digits.
- Parsing of URLs: the proxy step takes the parse of an endpoint to its host as a function.
- Floating point: a JSON number is carried by the text it prints as; request rates of the Kubernetes view are omitted.
- Data races: each request, delivered line and reader step is one atomic step, and the client's mutex is the rule that one request is in flight.
- Wrap-around of the 64-bit request counter of `StdioClient`.
- The keyword and embedding resolvers: the deferred resolver takes its fallback's answer as an argument, and `Gateway.HandleContext` takes the resolver's.
- How a source's transport is chosen from its configuration, and the spawn and handshake of a client: `Startup.SourceConfig` carries the outcome.
- Default values filled in by `builder.New`, feedback counting, bearer-token checks and the static `MapInjector`: the build, store and execute steps take what they yield as arguments, and no property here depends on it.
- Of the Kubernetes translation, the entities other than a deployment's health, and pod phases: field copying.
- X-Forwarded headers and hop-by-hop headers of the reverse proxy: library behaviour.
- The callable attached to each graph node, which sends the HTTP request.
- Layout.LayoutRoundTrip: gives back lines, not their fields, because names and values may contain spaces; `Reading` gives the fields back when they are words.
