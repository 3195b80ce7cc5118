// internal/sources/mcp: turning downstream MCP tools into registry tools.

module Importer {
  import opened Order
  import opened Text
  import opened Manifest
  import opened Registry
  import opened Schema
  import opened Naming

  datatype ToolDescriptor = ToolDescriptor(name: string, description: string, inputSchema: Option<JsonSchema>)

  datatype Source = Source(name: string, baseUrl: string, typ: string, extraCapabilities: seq<string>)

  // ---- Capabilities -----------------------------------------------------------------

  predicate Separator(c: char)
  {
    c == '.' || c == '_' || c == '-' || c == '/' || c == ' ' || c == ':'
  }

  // Maximal runs of other characters; cur is the run read so far.
  function Runs(cur: string, s: string): seq<string>
    decreases |s|
  {
    if s == "" then (if cur == "" then [] else [cur])
    else if Separator(s[0]) then (if cur == "" then [] else [cur]) + Runs("", s[1..])
    else Runs(cur + [s[0]], s[1..])
  }

  method Tokenize(s: string) returns (out: seq<string>)
    ensures out == Runs("", Lower(s))
  {
    var lowered := Lower(s);
    var cur := "";
    out := [];
    for i := 0 to |lowered|
      invariant out + Runs(cur, lowered[i..]) == Runs("", lowered)
    {
      var r := lowered[i];
      assert lowered[i..][0] == r && lowered[i..][1..] == lowered[i + 1..];
      if Separator(r) {
        if |cur| > 0 {
          assert out + ([cur] + Runs("", lowered[i + 1..])) == (out + [cur]) + Runs("", lowered[i + 1..]);
          out := out + [cur];
        } else {
          assert [] + Runs("", lowered[i + 1..]) == Runs("", lowered[i + 1..]);
        }
        cur := "";
      } else {
        cur := cur + [r];
      }
    }
    if |cur| > 0 {
      out := out + [cur];
    }
  }

  function Flatten(parts: seq<string>): string
  {
    if parts == [] then "" else parts[0] + Flatten(parts[1..])
  }

  function WithoutSeparators(s: string): string
  {
    if s == "" then "" else (if Separator(s[0]) then "" else [s[0]]) + WithoutSeparators(s[1..])
  }

  // Tokens are nonempty, hold no separator, and together are the name without its separators.
  lemma {:induction false} RunsFacts(cur: string, s: string)
    requires forall c :: c in cur ==> !Separator(c)
    ensures forall t :: t in Runs(cur, s) ==> t != "" && forall c :: c in t ==> !Separator(c)
    ensures Flatten(Runs(cur, s)) == cur + WithoutSeparators(s)
    decreases |s|
  {
    if s == "" {
      if cur != "" { assert Flatten([cur]) == cur + Flatten([]); }
    } else if Separator(s[0]) {
      RunsFacts("", s[1..]);
      var rest := Runs("", s[1..]);
      if cur != "" {
        assert ([cur] + rest)[1..] == rest;
      } else {
        assert [] + rest == rest;
      }
    } else {
      RunsFacts(cur + [s[0]], s[1..]);
    }
  }

  predicate WriteVerb(tok: string)
  {
    tok in {"create", "post", "put", "send", "publish", "delete", "destroy", "remove"}
  }

  predicate ReadVerb(tok: string)
  {
    tok in {"get", "list", "read", "fetch", "search", "describe"}
  }

  // The tags of a tool: the normal forms of its extra tags and its name's tokens, if they have at
  // least two characters, and "write" or "read" for the verbs among the tokens.
  lemma InferredExactly(name: string, extras: seq<string>, x: string)
    ensures x in InferredTags(name, extras) <==>
            || (|x| >= 2 && exists e :: e in extras && Norm(e) == x)
            || (|x| >= 2 && exists t :: t in Runs("", Lower(name)) && Norm(t) == x)
            || (x == "write" && exists t :: t in Runs("", Lower(name)) && WriteVerb(t))
            || (x == "read" && exists t :: t in Runs("", Lower(name)) && ReadVerb(t))
  {
    ExtrasExactly(extras, x);
    TokensExactly(Runs("", Lower(name)), x);
  }

  lemma {:induction false} ExtrasExactly(extras: seq<string>, x: string)
    ensures x in ExtraTags(extras) <==> |x| >= 2 && exists e :: e in extras && Norm(e) == x
  {
    if extras != [] {
      var init, last := extras[..|extras| - 1], extras[|extras| - 1];
      assert extras == init + [last];
      ExtrasExactly(init, x);
    }
  }

  lemma SynonymExactly(tok: string, x: string)
    ensures x in Synonym(tok) <==> (x == "write" && WriteVerb(tok)) || (x == "read" && ReadVerb(tok))
  {
    PlainWord("write");
    PlainWord("read");
    VerbsDiffer(tok);
  }

  lemma VerbsDiffer(tok: string)
    ensures !(WriteVerb(tok) && ReadVerb(tok))
  {
  }

  lemma PlainWord(w: string)
    requires |w| >= 2 && forall i :: 0 <= i < |w| ==> 'a' <= w[i] <= 'z'
    ensures Tag(w) == {w}
  {
    TrimmedIsFixed(w);
    assert Lower(w) == w;
  }

  lemma {:induction false} TokensExactly(toks: seq<string>, x: string)
    ensures x in TokenTags(toks) <==>
            || (|x| >= 2 && exists t :: t in toks && Norm(t) == x)
            || (x == "write" && exists t :: t in toks && WriteVerb(t))
            || (x == "read" && exists t :: t in toks && ReadVerb(t))
  {
    if toks != [] {
      var init, last := toks[..|toks| - 1], toks[|toks| - 1];
      assert toks == init + [last];
      TokensExactly(init, x);
      SynonymExactly(last, x);
    }
  }

  // A name without separators is one token.
  lemma {:induction false} RunsPlain(cur: string, s: string)
    requires cur + s != "" && forall c :: c in s ==> !Separator(c)
    ensures Runs(cur, s) == [cur + s]
    decreases |s|
  {
    if s == "" {
      assert cur + s == cur;
    } else {
      assert cur + [s[0]] + s[1..] == cur + s;
      RunsPlain(cur + [s[0]], s[1..]);
    }
  }

  // And a separator ends a token and begins the next.
  lemma {:induction false} RunsSplit(cur: string, s: string, sep: char, t: string)
    requires Separator(sep) && forall c :: c in s ==> !Separator(c)
    ensures Runs(cur, s + [sep] + t) == (if cur + s == "" then [] else [cur + s]) + Runs("", t)
    decreases |s|
  {
    var whole := s + [sep] + t;
    if s == "" {
      assert whole[1..] == t && cur + s == cur;
    } else {
      assert s[0] in s && whole[1..] == s[1..] + [sep] + t;
      assert cur + [s[0]] + s[1..] == cur + s;
      RunsSplit(cur + [s[0]], s[1..], sep, t);
    }
  }

  // What add keeps: normal forms of at least two characters.
  function Tag(s: string): set<string>
  {
    if |Norm(s)| < 2 then {} else {Norm(s)}
  }

  function Synonym(tok: string): set<string>
  {
    if tok in ["create", "post", "put", "send", "publish"] then Tag("write")
    else if tok in ["get", "list", "read", "fetch", "search", "describe"] then Tag("read")
    else if tok in ["delete", "destroy", "remove"] then Tag("write")
    else {}
  }

  function ExtraTags(extras: seq<string>): set<string>
  {
    if extras == [] then {} else ExtraTags(extras[..|extras| - 1]) + Tag(extras[|extras| - 1])
  }

  function TokenTags(toks: seq<string>): set<string>
  {
    if toks == [] then {} else
      var tok := toks[|toks| - 1];
      TokenTags(toks[..|toks| - 1]) + Tag(tok) + Synonym(tok)
  }

  function InferredTags(name: string, extras: seq<string>): set<string>
  {
    ExtraTags(extras) + TokenTags(Runs("", Lower(name)))
  }

  lemma OneToken(x: string)
    ensures TokenTags([x]) == Tag(x) + Synonym(x)
  {
    assert [x][..0] == [];
  }

  method InferCapabilities(name: string, extras: seq<string>) returns (out: seq<string>)
    ensures out == SortedSet(InferredTags(name, extras))
  {
    var seen: set<string> := {};
    for i := 0 to |extras|
      invariant seen == ExtraTags(extras[..i])
    {
      assert extras[..i + 1][..i] == extras[..i];
      seen := seen + Tag(extras[i]);
    }
    assert extras[..|extras|] == extras;
    var toks := Tokenize(name);
    for i := 0 to |toks|
      invariant seen == ExtraTags(extras) + TokenTags(toks[..i])
    {
      assert toks[..i + 1][..i] == toks[..i];
      seen := seen + Tag(toks[i]) + Synonym(toks[i]);
    }
    assert toks[..|toks|] == toks;
    out := SortedKeys(seen);
  }

  predicate NormalTag(s: string)
  {
    |s| >= 2 && Norm(s) == s && Trimmed(s)
  }

  lemma TagIsNormal(s: string)
    ensures forall x :: x in Tag(s) ==> NormalTag(x)
  {
    NormIdempotent(s);
    TrimIsTrimmed(s);
  }

  lemma SynonymIsNormal(tok: string)
    ensures forall x :: x in Synonym(tok) ==> NormalTag(x)
  {
    TagIsNormal("write");
    TagIsNormal("read");
  }

  lemma {:induction false} ExtraTagsNormal(extras: seq<string>)
    ensures forall x :: x in ExtraTags(extras) ==> NormalTag(x)
  {
    if extras != [] {
      ExtraTagsNormal(extras[..|extras| - 1]);
      TagIsNormal(extras[|extras| - 1]);
    }
  }

  lemma {:induction false} TokenTagsNormal(toks: seq<string>)
    ensures forall x :: x in TokenTags(toks) ==> NormalTag(x)
  {
    if toks != [] {
      TokenTagsNormal(toks[..|toks| - 1]);
      TagIsNormal(toks[|toks| - 1]);
      SynonymIsNormal(toks[|toks| - 1]);
    }
  }

  // Inferred tags are sorted, repetition-free, trimmed, lower-case and never single characters.
  lemma InferredAreNormal(name: string, extras: seq<string>)
    ensures Ascending(SortedSet(InferredTags(name, extras)))
    ensures forall x :: x in SortedSet(InferredTags(name, extras)) ==> NormalTag(x)
  {
    ExtraTagsNormal(extras);
    TokenTagsNormal(Runs("", Lower(name)));
    var tags := InferredTags(name, extras);
    SortedSetIsSorted(tags);
    forall x | x in SortedSet(tags) ensures NormalTag(x) {
      assert x in Elems(SortedSet(tags));
    }
  }

  // ---- Conversion -------------------------------------------------------------------

  function TrimSlashes(s: string): string
  {
    if s != "" && s[|s| - 1] == '/' then TrimSlashes(s[..|s| - 1]) else s
  }

  function DropPrefix(s: string, p: string): string
  {
    if HasPrefix(s, p) then s[|p|..] else s
  }

  function UntilDelimiter(s: string): string
  {
    if s == "" || s[0] == '/' || s[0] == ':' || s[0] == '?' then "" else [s[0]] + UntilDelimiter(s[1..])
  }

  function HostOf(rawUrl: string): string
  {
    UntilDelimiter(DropPrefix(DropPrefix(rawUrl, "https://"), "http://"))
  }

  ghost function ToolCapabilities(src: Source, d: ToolDescriptor): seq<string>
  {
    var tags := SortedSet(InferredTags(d.name, src.extraCapabilities));
    if tags == [] then [src.name] else tags
  }

  // A tool without a tag of its own carries its source's name.
  lemma ToolTags(src: Source, d: ToolDescriptor)
    ensures InferredTags(d.name, src.extraCapabilities) == {} ==> ToolCapabilities(src, d) == [src.name]
    ensures InferredTags(d.name, src.extraCapabilities) != {} ==>
              Ascending(ToolCapabilities(src, d)) &&
              Elems(ToolCapabilities(src, d)) == InferredTags(d.name, src.extraCapabilities)
  {
    SortedSetIsSorted(InferredTags(d.name, src.extraCapabilities));
  }

  function CompactOf(input: Option<JsonSchema>): map<string, string>
  {
    if input.Some? then CompactSchemaOf(input.value) else map[]
  }

  predicate Named(d: ToolDescriptor)
  {
    Trim(d.name) != ""
  }

  ghost function Converted(src: Source, d: ToolDescriptor): Option<Tool>
  {
    if !Named(d) then None
    else if Lower(src.typ) == "stdio" then
      Some(Tool(ToolId(src.name, d.name), "stdio", "stdio://" + src.name + "/" + d.name, "tools/call",
        CompactOf(d.inputSchema), NoAuth, "30s", ToolCapabilities(src, d), [], [], false))
    else
      Some(Tool(ToolId(src.name, d.name), "http", TrimSlashes(src.baseUrl) + "/tools/call/" + d.name, "POST",
        CompactOf(d.inputSchema), PreInjected, "30s", ToolCapabilities(src, d), [HostOf(src.baseUrl)], [], false))
  }

  method Convert(src: Source, d: ToolDescriptor) returns (r: Option<Tool>)
    ensures r == Converted(src, d)
  {
    if Trim(d.name) == "" {
      return None;
    }
    var caps := InferCapabilities(d.name, src.extraCapabilities);
    if |caps| == 0 {
      caps := [src.name];
    }
    var schema := CompactSchema(d.inputSchema);
    if Lower(src.typ) == "stdio" {
      return Some(Tool(ToolId(src.name, d.name), "stdio", "stdio://" + src.name + "/" + d.name, "tools/call",
        schema, NoAuth, "30s", caps, [], [], false));
    }
    return Some(Tool(ToolId(src.name, d.name), "http", TrimSlashes(src.baseUrl) + "/tools/call/" + d.name, "POST",
      schema, PreInjected, "30s", caps, [HostOf(src.baseUrl)], [], false));
  }

  lemma {:induction false} TrimSlashesFacts(s: string)
    ensures TrimSlashes(s) <= s
    ensures TrimSlashes(s) == "" || TrimSlashes(s)[|TrimSlashes(s)| - 1] != '/'
    ensures forall i :: |TrimSlashes(s)| <= i < |s| ==> s[i] == '/'
  {
    if s != "" && s[|s| - 1] == '/' {
      TrimSlashesFacts(s[..|s| - 1]);
    }
  }

  predicate Delimiter(c: char)
  {
    c == '/' || c == ':' || c == '?'
  }

  lemma {:induction false} UntilDelimiterAt(host: string, rest: string)
    requires forall c :: c in host ==> !Delimiter(c)
    requires rest == "" || Delimiter(rest[0])
    ensures UntilDelimiter(host + rest) == host
  {
    if host == "" {
      assert host + rest == rest;
    } else {
      assert host[0] in host && !Delimiter(host[0]);
      assert host == [host[0]] + host[1..];
      assert (host + rest)[1..] == host[1..] + rest;
      UntilDelimiterAt(host[1..], rest);
    }
  }

  // A base URL split at its host; what follows starts with a slash, a port or a query.
  ghost predicate BaseUrl(url: string, scheme: string, host: string, rest: string)
  {
    && url == scheme + host + rest && (scheme == "http://" || scheme == "https://")
    && host != "" && (forall c :: c in host ==> !Delimiter(c))
    && (rest == "" || Delimiter(rest[0])) && !HasPrefix(rest, "://")
  }

  lemma HostOfBaseUrl(url: string, scheme: string, host: string, rest: string)
    requires BaseUrl(url, scheme, host, rest)
    ensures HostOf(url) == host
  {
    UntilDelimiterAt(host, rest);
    assert url == scheme + (host + rest);
    if scheme == "http://" {
      assert url[4] == ':' && "https://"[4] == 's';
      assert DropPrefix(url, "https://") == url;
    } else {
      assert DropPrefix(url, "https://") == host + rest;
      SecondScheme(host, rest);
    }
  }

  lemma SecondScheme(host: string, rest: string)
    requires (forall c :: c in host ==> !Delimiter(c)) && (rest == "" || Delimiter(rest[0]))
    ensures HasPrefix(host + rest, "http://") ==> HasPrefix(rest, "://")
  {
    var s := host + rest;
    forall i | 0 <= i < |host| ensures !Delimiter(s[i]) {
      assert s[i] == host[i] && host[i] in host;
    }
    if HasPrefix(s, "http://") {
      assert s[..7] == "http://";
      forall i | 0 <= i < 4 ensures !Delimiter(s[i]) {
        assert s[i] == "http"[i];
      }
      assert Delimiter(s[4]);
      assert |host| <= 4;
      assert rest != "" ==> s[|host|] == rest[0];
      assert |host| == 4;
      assert rest[..3] == s[4..7] == "://";
    }
  }

  // A tool imported over HTTP is called by POST below the base URL, trailing slashes aside, and may
  // reach exactly the host of that URL.
  lemma HttpToolConverted(src: Source, d: ToolDescriptor, scheme: string, host: string, rest: string)
    requires Named(d) && Lower(src.typ) != "stdio" && BaseUrl(src.baseUrl, scheme, host, rest)
    ensures Converted(src, d).Some?
    ensures var t := Converted(src, d).value;
            && t.id == ToolId(src.name, d.name) && t.typ == "http" && t.verb == "POST"
            && t.auth == PreInjected && t.timeout == "30s" && t.egress == [host]
            && CalledBelow(t.endpoint, src.baseUrl, scheme + host, "/tools/call/" + d.name)
  {
    HostOfBaseUrl(src.baseUrl, scheme, host, rest);
    EndpointBelow(src.baseUrl, scheme, host, rest, d.name);
  }

  lemma EndpointBelow(url: string, scheme: string, host: string, rest: string, name: string)
    requires BaseUrl(url, scheme, host, rest)
    ensures CalledBelow(TrimSlashes(url) + "/tools/call/" + name, url, scheme + host, "/tools/call/" + name)
  {
    assert host[|host| - 1] in host;
    assert url == (scheme + host) + rest;
    TrimmedBase(url, scheme + host);
    TrimSlashesFacts(url);
    Associates(TrimSlashes(url), "/tools/call/", name);
  }

  lemma Associates(a: string, b: string, c: string)
    ensures a + b + c == a + (b + c)
  {
  }

  // The endpoint is the URL without trailing slashes, still naming the host, followed by the path.
  ghost predicate CalledBelow(endpoint: string, url: string, origin: string, path: string)
  {
    exists base :: && endpoint == base + path && origin <= base <= url
                   && base != "" && base[|base| - 1] != '/' && forall i :: |base| <= i < |url| ==> url[i] == '/'
  }

  lemma TrimmedBase(url: string, origin: string)
    requires origin != "" && origin <= url && origin[|origin| - 1] != '/'
    ensures origin <= TrimSlashes(url)
  {
    TrimSlashesFacts(url);
    assert url[|origin| - 1] == origin[|origin| - 1];
  }

  // The first blank name from k on, or the end.
  function FirstBlank(ds: seq<ToolDescriptor>, k: nat): (n: nat)
    requires k <= |ds|
    ensures k <= n <= |ds|
    ensures forall j :: k <= j < n ==> Named(ds[j])
    ensures n < |ds| ==> !Named(ds[n])
    decreases |ds| - k
  {
    if k == |ds| || !Named(ds[k]) then k else FirstBlank(ds, k + 1)
  }

  ghost function ToolsOf(src: Source, ds: seq<ToolDescriptor>, n: nat): seq<Tool>
    requires n <= |ds| && forall k :: 0 <= k < n ==> Named(ds[k])
  {
    seq(n, k requires 0 <= k < n => Converted(src, ds[k]).value)
  }

  // The tools of the descriptors before the first one that cannot be converted.
  ghost function ConvertedAll(src: Source, ds: seq<ToolDescriptor>): seq<Tool>
  {
    ToolsOf(src, ds, FirstBlank(ds, 0))
  }

  lemma ConvertedRegisters(src: Source, d: ToolDescriptor)
    requires Converted(src, d).Some?
    ensures Trim(Converted(src, d).value.id) != "" && Converted(src, d).value.capabilities != []
  {
    NonblankHasDot(src.name, d.name);
  }

  lemma NonblankHasDot(a: string, b: string)
    ensures Trim(ToolId(a, b)) != ""
  {
    var id := ToolId(a, b);
    assert id[|a|] == '.';
    TrimLeftKeeps(id, '.');
    TrimRightKeeps(TrimLeft(id), '.');
  }

  lemma {:induction false} TrimLeftKeeps(s: string, c: char)
    requires c in s && !IsSpace(c)
    ensures c in TrimLeft(s)
  {
    if IsSpace(s[0]) {
      assert s == [s[0]] + s[1..];
      TrimLeftKeeps(s[1..], c);
    }
  }

  lemma {:induction false} TrimRightKeeps(s: string, c: char)
    requires c in s && !IsSpace(c)
    ensures c in TrimRight(s)
  {
    if IsSpace(s[|s| - 1]) {
      assert s == s[..|s| - 1] + [s[|s| - 1]];
      TrimRightKeeps(s[..|s| - 1], c);
    }
  }

  lemma LoadSnoc(tools: ToolMap, ts: seq<Tool>, t: Tool)
    ensures Load(tools, ts + [t]) == Load(tools, ts)[t.id := t]
  {
    assert (ts + [t])[..|ts|] == ts;
  }

  lemma RegisterNext(tools0: ToolMap, src: Source, ds: seq<ToolDescriptor>, n: nat)
    requires n < FirstBlank(ds, 0)
    ensures Load(tools0, ToolsOf(src, ds, n + 1)) ==
            Load(tools0, ToolsOf(src, ds, n))[Converted(src, ds[n]).value.id := Converted(src, ds[n]).value]
  {
    ToolsOfNext(src, ds, n);
    LoadSnoc(tools0, ToolsOf(src, ds, n), Converted(src, ds[n]).value);
  }

  lemma ToolsOfNext(src: Source, ds: seq<ToolDescriptor>, n: nat)
    requires n < |ds| && forall k :: 0 <= k <= n ==> Named(ds[k])
    ensures ToolsOf(src, ds, n + 1) == ToolsOf(src, ds, n) + [Converted(src, ds[n]).value]
  {
  }

  // Registers descriptors until the first failure; returns how many and whether all went in.
  method RegisterAll(reg: MemoryRegistry, src: Source, ds: seq<ToolDescriptor>) returns (count: nat, ok: bool)
    requires reg.Valid()
    modifies reg
    ensures reg.Valid()
    ensures reg.tools == Load(old(reg.tools), ConvertedAll(src, ds))
    ensures count == |ConvertedAll(src, ds)| && (ok <==> count == |ds|)
  {
    count := 0;
    while count < |ds|
      invariant count <= FirstBlank(ds, 0)
      invariant reg.Valid() && reg.tools == Load(old(reg.tools), ToolsOf(src, ds, count))
    {
      var tool := Convert(src, ds[count]);
      if tool.None? {
        return count, false;
      }
      ConvertedRegisters(src, ds[count]);
      RegisterNext(old(reg.tools), src, ds, count);
      var registered := reg.Register(tool.value);
      if !registered {
        return count, false;
      }
      count := count + 1;
    }
    return count, true;
  }
}
