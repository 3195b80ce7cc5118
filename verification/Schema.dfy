// The compact schema mini-language: its printer (internal/sources/mcp) and its two parsers
// (internal/bridge and adapters/python/acp_common).

module Schema {
  import opened Text
  import opened Manifest

  // A property of a downstream tool's input schema, as decoded JSON: Absent is a nil map,
  // values is the nonempty "enum" list printed value by value ([] when there is none), and
  // typ is "" when "type" is missing or not a string.
  datatype Field = Absent | Field(typ: string, values: seq<string>, items: Field)

  // A JSON Schema fragment as emitted; notes are annotations beside the core type.
  datatype Fragment = Fragment(typ: string, items: Option<Fragment>, values: Option<seq<string>>,
                               notes: map<string, string>)

  function Plain(typ: string): Fragment
  {
    Fragment(typ, None, None, map[])
  }

  function ArrayOf(items: Fragment): Fragment
  {
    Fragment("array", Some(items), None, map[])
  }

  function EnumOf(values: seq<string>): Fragment
  {
    Fragment("string", None, Some(values), map[])
  }

  function Core(f: Fragment): Fragment
  {
    Fragment(f.typ, if f.items.Some? then Some(Core(f.items.value)) else None, f.values, map[])
  }

  // ---- The printer ------------------------------------------------------------------

  function CompactField(f: Field): string
  {
    match f
    case Absent => "string"
    case Field(typ, values, items) =>
      if values != [] then "enum:" + Join(values, '|')
      else if typ == "string" then "string"
      else if typ == "integer" then "int"
      else if typ == "number" then "float"
      else if typ == "boolean" then "bool"
      else if typ == "object" then "json"
      else if typ == "array" then CompactField(items) + "[]"
      else "string"
  }

  // ---- The Go parser ----------------------------------------------------------------

  function Expand(compact: string): Fragment
    decreases |compact|, 1
  {
    ExpandMarkless(TrimSuffix(compact, "?"))
  }

  // What follows the removal of one optional mark.
  function ExpandMarkless(s: string): Fragment
    decreases |s|, 0
  {
    if HasPrefix(s, "enum:") then EnumOf(Split(s[5..], '|'))
    else if HasSuffix(s, "[]") then ArrayOf(Expand(s[..|s| - 2]))
    else if s == "string" then Plain("string")
    else if s == "int" then Plain("integer")
    else if s == "float" then Plain("number")
    else if s == "bool" then Plain("boolean")
    else if s == "json" then Plain("object")
    else if s == "bytes" then Plain("string").(notes := map["format" := "byte"])
    else Plain("string")
  }

  // ---- The Python parser ------------------------------------------------------------

  predicate PySpace(c: char)
  {
    IsSpace(c) || '\U{1C}' <= c <= '\U{1F}'
  }

  function PyStrip(s: string): (r: string)
    ensures |r| <= |s|
  {
    if s != "" && PySpace(s[0]) then PyStrip(s[1..])
    else if s != "" && PySpace(s[|s| - 1]) then PyStrip(s[..|s| - 1])
    else s
  }

  function PyBase(s: string): Fragment
  {
    if s == "string" then Plain("string")
    else if s == "int" then Plain("integer")
    else if s == "float" then Plain("number")
    else if s == "bool" then Plain("boolean")
    else if s == "json" then Plain("object").(notes := map["additionalProperties" := "true"])
    else if s == "bytes" then Plain("string").(notes := map["contentEncoding" := "base64"])
    else Plain("string")
  }

  function ExpandPy(compact: string): Fragment
    decreases |compact|
  {
    var s := PyStrip(compact);
    if HasPrefix(s, "enum:") then EnumOf(Split(s[5..], '|'))
    else if HasPrefix(s, "ref:") then
      Plain("string").(notes := map["description" := "opaque reference of kind " + s[4..]])
    else
      var q := TrimSuffix(s, "?");
      if HasSuffix(q, "[]") then ArrayOf(ExpandPy(q[..|q| - 2])) else PyBase(q)
  }

  // ---- Printing and parsing are inverse where the notation allows it -----------------

  // The type a field declares, written as a fragment.
  function Declared(f: Field): Fragment
  {
    match f
    case Absent => Plain("")
    case Field(typ, values, items) =>
      if values != [] then Fragment(typ, None, Some(values), map[])
      else if typ == "array" then ArrayOf(Declared(items))
      else Plain(typ)
  }

  predicate Scalar(typ: string)
  {
    typ == "string" || typ == "integer" || typ == "number" || typ == "boolean" || typ == "object"
  }

  // Scalars and arrays, nested to any depth, of scalars.
  predicate ScalarTree(f: Field)
  {
    f.Field? && f.values == [] && (Scalar(f.typ) || (f.typ == "array" && ScalarTree(f.items)))
  }

  // A string enum whose values can be told apart once joined with bars.
  predicate BarFreeEnum(f: Field)
  {
    f.Field? && f.values != [] && f.typ == "string" && forall v :: v in f.values ==> '|' !in v
  }

  // The printed field looks optional though nothing marked it so.
  predicate LooksOptional(f: Field)
  {
    f.Field? && f.values != [] && HasSuffix(f.values[|f.values| - 1], "?")
  }

  predicate StartsEnum(f: Field)
  {
    f.Field? && (f.values != [] || (f.typ == "array" && StartsEnum(f.items)))
  }

  lemma EnumShape(values: seq<string>)
    requires values != []
    ensures HasPrefix("enum:" + Join(values, '|'), "enum:")
    ensures HasSuffix("enum:" + Join(values, '|'), "?") <==> HasSuffix(values[|values| - 1], "?")
  {
    var j := Join(values, '|');
    var s := "enum:" + j;
    assert s[..5] == "enum:";
    JoinEnd(values, '|');
    EndOf("enum:", j);
    JoinLast(values);
    var w := "enum:";
    assert w[|w| - 1..] == ":";
  }

  lemma {:induction false} CompactShape(f: Field)
    ensures CompactField(f) != ""
    ensures HasPrefix(CompactField(f), "enum:") <==> StartsEnum(f)
    ensures HasSuffix(CompactField(f), "?") <==> LooksOptional(f)
  {
    if f.Field? && f.values != [] {
      EnumShape(f.values);
    } else if f.Field? && f.typ == "array" {
      var c := CompactField(f.items);
      CompactShape(f.items);
      EnumPrefixOfArray(c);
    } else {
      WordShape(f);
    }
  }

  // Neither an enum nor an array prints as one of the notation's words.
  lemma WordShape(f: Field)
    requires f.Field? ==> f.values == [] && f.typ != "array"
    ensures CompactField(f) != ""
    ensures !HasPrefix(CompactField(f), "enum:") && !HasSuffix(CompactField(f), "?")
  {
    BareWord(CompactField(f));
  }

  lemma BareWord(s: string)
    requires s != "" && s[0] != 'e' && s[0] != 'r' && s[|s| - 1] != ']' && s[|s| - 1] != '?'
    ensures !HasPrefix(s, "enum:") && !HasPrefix(s, "ref:") && !HasSuffix(s, "[]") && !HasSuffix(s, "?")
  {
    assert s[|s| - 1..] == [s[|s| - 1]];
  }

  lemma EndOf(p: string, s: string)
    ensures s != "" ==> (HasSuffix(p + s, "?") <==> HasSuffix(s, "?"))
    ensures s == "" ==> p + s == p
  {
    if s != "" {
      assert (p + s)[|p + s| - 1..] == [s[|s| - 1]];
      assert s[|s| - 1..] == [s[|s| - 1]];
    }
  }

  lemma JoinLast(parts: seq<string>)
    requires parts != []
    ensures HasSuffix(Join(parts, '|'), "?") <==> HasSuffix(parts[|parts| - 1], "?")
  {
    var j, last := Join(parts, '|'), parts[|parts| - 1];
    JoinEnd(parts, '|');
    if last != "" {
      assert j == j[..|j| - |last|] + last;
      EndOf(j[..|j| - |last|], last);
    } else {
      JoinBlankEnd(parts);
    }
  }

  lemma {:induction false} JoinBlankEnd(parts: seq<string>)
    requires parts != [] && parts[|parts| - 1] == ""
    ensures !HasSuffix(Join(parts, '|'), "?")
  {
    if |parts| > 1 {
      JoinBlankEnd(parts[1..]);
      var tail := Join(parts[1..], '|');
      EndOf(parts[0] + "|", tail);
      assert Join(parts, '|') == (parts[0] + "|") + tail;
      if tail == "" {
        var w := parts[0] + "|";
        assert w[|w| - 1..] == "|";
      }
    }
  }

  lemma EnumPrefixOfArray(c: string)
    ensures HasPrefix(c + "[]", "enum:") <==> HasPrefix(c, "enum:")
    ensures HasSuffix(c + "[]", "[]") && (c + "[]")[..|c + "[]"| - 2] == c
    ensures !HasSuffix(c + "[]", "?")
  {
    var s := c + "[]";
    assert s[|s| - 2..] == "[]";
    assert s[|s| - 1..] == "]";
    assert s[|c|] == '[';
    assert |c| < 5 ==> "enum:"[|c|] != '[';
    if HasPrefix(c, "enum:") {
      assert s[..5] == c[..5];
    }
  }

  lemma ArrayRead(c: string)
    requires !HasPrefix(c, "enum:")
    ensures ExpandMarkless(c + "[]") == ArrayOf(Expand(c))
  {
    EnumPrefixOfArray(c);
  }

  lemma EnumArrayRead(c: string)
    requires HasPrefix(c, "enum:")
    ensures ExpandMarkless(c + "[]").typ == "string"
  {
    EnumPrefixOfArray(c);
  }

  lemma WordRead(f: Field)
    requires f.Absent? || (f.values == [] && f.typ != "array")
    ensures ExpandMarkless(CompactField(f)) == Declared(f) <==> ScalarTree(f)
  {
    BareWord(CompactField(f));
  }

  // On a field that is not an enum, parsing what was printed gives back the declared type
  // exactly for scalars and arrays of them, with or without the optional mark.
  lemma {:induction false} PlainRoundTrip(f: Field)
    requires f.Absent? || f.values == []
    ensures Expand(CompactField(f)) == ExpandMarkless(CompactField(f))
    ensures ExpandMarkless(CompactField(f)) == Declared(f) <==> ScalarTree(f)
  {
    CompactShape(f);
    if f.Field? && f.typ == "array" {
      if StartsEnum(f.items) {
        EnumArrayTrip(f);
      } else {
        PlainRoundTrip(f.items);
        ArrayTrip(f);
      }
    } else {
      WordRead(f);
    }
  }

  lemma EnumArrayTrip(f: Field)
    requires f.Field? && f.values == [] && f.typ == "array" && StartsEnum(f.items)
    ensures ExpandMarkless(CompactField(f)) != Declared(f) && !ScalarTree(f)
  {
    CompactShape(f.items);
    EnumArrayRead(CompactField(f.items));
    EnumStartIsNoScalarTree(f.items);
  }

  lemma ArrayTrip(f: Field)
    requires f.Field? && f.values == [] && f.typ == "array" && !StartsEnum(f.items)
    requires Expand(CompactField(f.items)) == Declared(f.items) <==> ScalarTree(f.items)
    ensures ExpandMarkless(CompactField(f)) == Declared(f) <==> ScalarTree(f)
  {
    CompactShape(f.items);
    ArrayRead(CompactField(f.items));
  }

  lemma {:induction false} EnumStartIsNoScalarTree(f: Field)
    requires StartsEnum(f)
    ensures !ScalarTree(f)
  {
    if f.values == [] {
      EnumStartIsNoScalarTree(f.items);
    }
  }

  lemma MarklessEnum(values: seq<string>, s: string)
    requires values != [] && s == Join(values, '|')
    ensures ExpandMarkless("enum:" + s) == EnumOf(Split(s, '|'))
    ensures (forall v :: v in values ==> '|' !in v) <==> Split(s, '|') == values
  {
    assert ("enum:" + s)[..5] == "enum:" && ("enum:" + s)[5..] == s;
    if forall v :: v in values ==> '|' !in v {
      SplitJoin(values, '|');
    } else {
      SplitPartsArePlain(s, '|');
    }
  }

  // Go's parser undoes the printer on an optional property exactly for scalars, nested arrays
  // of scalars, and top-level string enums without a bar in a value.
  lemma OptionalRoundTrip(f: Field)
    ensures Expand(CompactField(f) + "?") == Declared(f) <==> ScalarTree(f) || BarFreeEnum(f)
  {
    var c := CompactField(f);
    assert TrimSuffix(c + "?", "?") == c;
    if f.Absent? || f.values == [] {
      PlainRoundTrip(f);
    } else {
      MarklessEnum(f.values, Join(f.values, '|'));
    }
  }

  // On a required property the last enum value must not end in the mark either.
  lemma RequiredRoundTrip(f: Field)
    ensures Expand(CompactField(f)) == Declared(f) <==>
            ScalarTree(f) || (BarFreeEnum(f) && !LooksOptional(f))
  {
    if f.Absent? || f.values == [] {
      PlainRoundTrip(f);
    } else {
      CompactShape(f);
      var j := Join(f.values, '|');
      var c := "enum:" + j;
      MarklessEnum(f.values, j);
      JoinLast(f.values);
      if LooksOptional(f) {
        var t := j[..|j| - 1];
        assert TrimSuffix(c, "?") == "enum:" + t;
        assert ("enum:" + t)[..5] == "enum:" && ("enum:" + t)[5..] == t;
        JoinSplit(t, '|');
        assert Split(t, '|') != f.values;
      }
    }
  }

  // ---- The two parsers agree --------------------------------------------------------

  predicate WhitespaceFree(s: string)
  {
    forall c :: c in s ==> !PySpace(c)
  }

  lemma StripIsIdle(s: string)
    requires WhitespaceFree(s)
    ensures PyStrip(s) == s
  {
  }

  // On text without white space Go and Python read the same core type, malformed text
  // included, except for an enum that ends in the mark and a reference written as an array.
  lemma {:induction false} ParsersAgree(s: string)
    requires WhitespaceFree(s)
    ensures Core(Expand(s)) == Core(ExpandPy(s)) <==>
            !(HasPrefix(s, "enum:") && HasSuffix(s, "?")) &&
            !(HasPrefix(s, "ref:") && HasSuffix(TrimSuffix(s, "?"), "[]"))
    decreases |s|
  {
    if HasPrefix(s, "enum:") {
      AgreeOnEnum(s);
      assert s[0] == 'e';
    } else if HasPrefix(s, "ref:") {
      AgreeOnReference(s);
    } else if HasSuffix(TrimSuffix(s, "?"), "[]") {
      var inner := TrimSuffix(s, "?")[..|TrimSuffix(s, "?")| - 2];
      AgreeOnArray(s, inner);
      ParsersAgree(inner);
    } else {
      AgreeOnWord(s);
    }
  }

  lemma AgreeOnArray(s: string, inner: string)
    requires WhitespaceFree(s) && !HasPrefix(s, "enum:") && !HasPrefix(s, "ref:")
    requires HasSuffix(TrimSuffix(s, "?"), "[]") && inner == TrimSuffix(s, "?")[..|TrimSuffix(s, "?")| - 2]
    ensures WhitespaceFree(inner) && !HasPrefix(inner, "enum:") && !HasPrefix(inner, "ref:")
    ensures Core(Expand(s)) == Core(ExpandPy(s)) <==> Core(Expand(inner)) == Core(ExpandPy(inner))
  {
    var q := TrimSuffix(s, "?");
    StripIsIdle(s);
    assert inner <= q <= s;
    PrefixOfPrefix("enum:", q, s);
    PrefixOfPrefix("enum:", inner, s);
    PrefixOfPrefix("ref:", inner, s);
    ArrayCores(s, q, inner);
  }

  lemma ArrayCores(s: string, q: string, inner: string)
    requires PyStrip(s) == s && q == TrimSuffix(s, "?") && HasSuffix(q, "[]") && inner == q[..|q| - 2]
    requires !HasPrefix(s, "enum:") && !HasPrefix(q, "enum:") && !HasPrefix(s, "ref:")
    ensures Core(Expand(s)) == ArrayOf(Core(Expand(inner)))
    ensures Core(ExpandPy(s)) == ArrayOf(Core(ExpandPy(inner)))
  {
  }

  lemma AgreeOnWord(s: string)
    requires WhitespaceFree(s) && !HasPrefix(s, "enum:") && !HasPrefix(s, "ref:")
    requires !HasSuffix(TrimSuffix(s, "?"), "[]")
    ensures Core(Expand(s)) == Core(ExpandPy(s))
  {
    var q := TrimSuffix(s, "?");
    StripIsIdle(s);
    assert q <= s;
    PrefixOfPrefix("enum:", q, s);
    WordCores(q);
    WordParsed(s, q);
  }

  lemma WordCores(q: string)
    requires !HasPrefix(q, "enum:") && !HasSuffix(q, "[]")
    ensures Core(ExpandMarkless(q)) == Core(PyBase(q))
  {
  }

  lemma WordParsed(s: string, q: string)
    requires PyStrip(s) == s && q == TrimSuffix(s, "?") && !HasSuffix(q, "[]")
    requires !HasPrefix(s, "enum:") && !HasPrefix(s, "ref:")
    ensures Expand(s) == ExpandMarkless(q) && ExpandPy(s) == PyBase(q)
  {
  }

  lemma AgreeOnEnum(s: string)
    requires WhitespaceFree(s) && HasPrefix(s, "enum:")
    ensures Core(Expand(s)) == Core(ExpandPy(s)) <==> !HasSuffix(s, "?")
  {
    StripIsIdle(s);
    var q := TrimSuffix(s, "?");
    assert s[..5] == "enum:" && s[4] == ':';
    assert q[..5] == "enum:";
    JoinSplit(q[5..], '|');
    JoinSplit(s[5..], '|');
  }

  lemma AgreeOnReference(s: string)
    requires WhitespaceFree(s) && HasPrefix(s, "ref:")
    ensures Core(Expand(s)) == Core(ExpandPy(s)) <==> !HasSuffix(TrimSuffix(s, "?"), "[]")
  {
    StripIsIdle(s);
    var q := TrimSuffix(s, "?");
    assert s[..4] == "ref:" && s[0] == 'r' && s[3] == ':';
    assert q[0] == 'r' && q[3] == ':';
    assert !HasPrefix(s, "enum:") && !HasPrefix(q, "enum:");
  }

  lemma PrefixOfPrefix(p: string, q: string, s: string)
    requires q <= s
    ensures p <= q ==> p <= s
  {
  }

  // ---- Whole schemas ----------------------------------------------------------------

  // A decoded inputSchema: its "properties" map and the strings of its "required" list.
  datatype JsonSchema = JsonSchema(props: map<string, Field>, required: seq<string>)

  // A tool as listed over MCP; required is a set because Go fills it in map order, and the
  // empty set stands for an omitted key.
  datatype McpTool = McpTool(name: string, description: string,
                             properties: map<string, Fragment>, required: set<string>)

  function CompactEntry(js: JsonSchema, name: string): string
    requires name in js.props
  {
    CompactField(js.props[name]) + if name in js.required then "" else "?"
  }

  function CompactSchemaOf(js: JsonSchema): map<string, string>
  {
    map name | name in js.props :: CompactEntry(js, name)
  }

  // compactSchema of internal/sources/mcp; None is a missing inputSchema.
  method CompactSchema(input: Option<JsonSchema>) returns (out: map<string, string>)
    ensures out == if input.Some? then CompactSchemaOf(input.value) else map[]
  {
    out := map[];
    if input.None? {
      return;
    }
    var js := input.value;
    var required := RequiredSet(js.required);
    var left := js.props.Keys;
    while left != {}
      invariant left <= js.props.Keys
      invariant out.Keys == js.props.Keys - left
      invariant forall name :: name in out ==> out[name] == CompactEntry(js, name)
      decreases left
    {
      var name :| name in left;
      var compact := CompactField(js.props[name]);
      if name !in required {
        compact := compact + "?";
      }
      assert compact == CompactEntry(js, name);
      out := out[name := compact];
      left := left - {name};
    }
  }

  method RequiredSet(raw: seq<string>) returns (out: set<string>)
    ensures forall name :: name in out <==> name in raw
  {
    out := {};
    for i := 0 to |raw|
      invariant forall name :: name in out <==> name in raw[..i]
    {
      out := out + {raw[i]};
      assert raw[..i + 1] == raw[..i] + [raw[i]];
    }
  }

  function RequiredNames(schema: map<string, string>): set<string>
  {
    set name | name in schema && !HasSuffix(schema[name], "?")
  }

  function McpToolOf(t: Tool): McpTool
  {
    McpTool(t.id, "[ACP-compacted] " + t.id,
      map name | name in t.schema :: Expand(t.schema[name]), RequiredNames(t.schema))
  }

  // toolToMCP of internal/bridge.
  method ToolToMcp(t: Tool) returns (m: McpTool)
    ensures m == McpToolOf(t)
  {
    var properties: map<string, Fragment> := map[];
    var required: set<string> := {};
    var left := t.schema.Keys;
    while left != {}
      invariant left <= t.schema.Keys
      invariant properties.Keys == t.schema.Keys - left
      invariant forall name :: name in properties ==> properties[name] == Expand(t.schema[name])
      invariant required == RequiredNames(t.schema) - left
      decreases left
    {
      var name :| name in left;
      if !HasSuffix(t.schema[name], "?") {
        required := required + {name};
      }
      properties := properties[name := Expand(t.schema[name])];
      left := left - {name};
    }
    m := McpTool(t.id, "[ACP-compacted] " + t.id, properties, required);
  }

  // action_to_jsonschema of adapters/python/acp_common; names is the dictionary's order.
  method ActionToJsonSchema(schema: map<string, string>, names: seq<string>)
    returns (properties: map<string, Fragment>, required: seq<string>)
    requires forall name :: name in names <==> name in schema
    ensures properties == map name | name in schema :: ExpandPy(schema[name])
    ensures forall name :: name in required <==> name in RequiredNames(schema)
  {
    properties, required := map[], [];
    for i := 0 to |names|
      invariant forall name :: name in properties <==> name in names[..i]
      invariant forall name :: name in properties ==> properties[name] == ExpandPy(schema[name])
      invariant forall name :: name in required <==> name in names[..i] && !HasSuffix(schema[name], "?")
    {
      var name := names[i];
      assert names[..i + 1] == names[..i] + [name];
      assert name in schema;
      properties := properties[name := ExpandPy(schema[name])];
      if !HasSuffix(schema[name], "?") {
        required := required + [name];
      }
    }
    assert names[..|names|] == names;
  }

  // What a client is shown of an imported tool: a property comes back with its declared type
  // exactly when the notation can carry it, and the required set is the declared one restricted
  // to declared properties, minus the enums whose last value ends in the optional mark.
  lemma ImportedSchemaShown(js: JsonSchema, t: Tool, name: string)
    requires t.schema == CompactSchemaOf(js) && name in js.props
    ensures name in McpToolOf(t).properties
    ensures McpToolOf(t).properties[name] == Declared(js.props[name]) <==>
            ScalarTree(js.props[name]) ||
            (BarFreeEnum(js.props[name]) && !(name in js.required && LooksOptional(js.props[name])))
    ensures name in McpToolOf(t).required <==> name in js.required && !LooksOptional(js.props[name])
  {
    var f := js.props[name];
    var c := CompactField(f);
    CompactShape(f);
    if name in js.required {
      assert t.schema[name] == c + "" == c;
      RequiredRoundTrip(f);
    } else {
      assert t.schema[name] == c + "?";
      assert HasSuffix(c + "?", "?");
      OptionalRoundTrip(f);
    }
  }

  // The required set is rebuilt faithfully exactly when no required property looks optional.
  lemma RequiredSetRebuilt(js: JsonSchema, t: Tool)
    requires t.schema == CompactSchemaOf(js)
    ensures McpToolOf(t).required == (set name | name in js.props && name in js.required) <==>
            forall name :: name in js.props && name in js.required ==> !LooksOptional(js.props[name])
  {
    forall name | name in js.props
      ensures name in McpToolOf(t).required <==> name in js.required && !LooksOptional(js.props[name]) {
      ImportedSchemaShown(js, t, name);
    }
    var declared := set name | name in js.props && name in js.required;
    if McpToolOf(t).required == declared {
      forall name | name in js.props && name in js.required ensures !LooksOptional(js.props[name]) {
        assert name in declared;
      }
    }
  }

  lemma {:induction false} ScalarTreeText(f: Field)
    requires ScalarTree(f)
    ensures WhitespaceFree(CompactField(f))
    ensures !HasPrefix(CompactField(f), "ref:") && !HasPrefix(CompactField(f), "enum:")
  {
    CompactShape(f);
    if f.typ == "array" {
      ScalarTreeText(f.items);
      CompactShape(f.items);
      EnumStart(f);
      RefPrefixOfArray(CompactField(f.items));
    } else {
      BareWord(CompactField(f));
    }
  }

  lemma {:induction false} EnumStart(f: Field)
    requires ScalarTree(f)
    ensures !StartsEnum(f)
  {
    if f.typ == "array" {
      EnumStart(f.items);
    }
  }

  lemma RefPrefixOfArray(c: string)
    requires c != "" && !HasPrefix(c, "ref:")
    ensures !HasPrefix(c + "[]", "ref:")
  {
    PrefixBefore("ref:", c, "[]");
  }

  lemma PrefixBefore(p: string, c: string, t: string)
    requires t != "" && t[0] !in p
    ensures HasPrefix(c + t, p) ==> HasPrefix(c, p)
  {
    var s := c + t;
    if HasPrefix(s, p) {
      assert forall i :: 0 <= i < |p| ==> s[i] == p[i];
      assert s[|c|] == t[0];
      assert |p| <= |c|;
      assert p == s[..|p|] == c[..|p|];
    }
  }

  lemma {:induction false} DeclaredIsCore(f: Field)
    requires ScalarTree(f)
    ensures Core(Declared(f)) == Declared(f)
  {
    if f.typ == "array" {
      DeclaredIsCore(f.items);
    }
  }

  // An adapter shows a scalar, or an array of them at any depth, with its declared type, marked or
  // not.
  lemma AdapterShowsDeclared(js: JsonSchema, name: string)
    requires name in js.props && ScalarTree(js.props[name])
    ensures Core(ExpandPy(CompactSchemaOf(js)[name])) == Declared(js.props[name])
  {
    var f := js.props[name];
    var c := CompactField(f);
    ScalarTreeText(f);
    DeclaredIsCore(f);
    MarkKeepsText(c);
    CompactShape(f);
    if name in js.required {
      assert c + "" == c;
      RequiredRoundTrip(f);
      ParsersAgree(c);
    } else {
      OptionalRoundTrip(f);
      ParsersAgree(c + "?");
    }
  }

  lemma MarkKeepsText(c: string)
    requires c != "" && WhitespaceFree(c) && !HasPrefix(c, "ref:") && !HasPrefix(c, "enum:")
    ensures WhitespaceFree(c + "?") && !HasPrefix(c + "?", "ref:") && !HasPrefix(c + "?", "enum:")
  {
    PrefixBefore("ref:", c, "?");
    PrefixBefore("enum:", c, "?");
  }

  // Beside the type, Go notes the format of bytes; Python notes their encoding, that objects are open,
  // and what a reference refers to. Other words carry no note.
  lemma Annotated(kind: string)
    ensures Expand("bytes") == Fragment("string", None, None, map["format" := "byte"])
    ensures ExpandPy("bytes") == Fragment("string", None, None, map["contentEncoding" := "base64"])
    ensures Expand("json").notes == map[]
    ensures ExpandPy("json").notes == map["additionalProperties" := "true"]
    ensures forall w :: w in {"string", "int", "float", "bool"} ==> Expand(w).notes == ExpandPy(w).notes == map[]
    ensures WhitespaceFree("ref:" + kind) ==>
              ExpandPy("ref:" + kind).notes == map["description" := "opaque reference of kind " + kind]
  {
    WordNotes("bytes");
    WordNotes("json");
    forall w | w in {"string", "int", "float", "bool"} ensures Expand(w).notes == ExpandPy(w).notes == map[] {
      WordNotes(w);
    }
    var r := "ref:" + kind;
    assert r[0] == 'r' && "enum:"[0] == 'e' && r[4..] == kind && r[..4] == "ref:";
    if WhitespaceFree(r) {
      StripIsIdle(r);
    }
  }

  lemma WordNotes(w: string)
    requires w in {"string", "int", "float", "bool", "json", "bytes"}
    ensures Expand(w) == ExpandMarkless(w) && ExpandPy(w) == PyBase(w)
    ensures ExpandMarkless(w).notes == if w == "bytes" then map["format" := "byte"] else map[]
    ensures w == "bytes" ==> ExpandMarkless(w) == Fragment("string", None, None, map["format" := "byte"])
  {
    BareWord(w);
    WhitespaceFreeWord(w);
    StripIsIdle(w);
  }

  lemma WhitespaceFreeWord(w: string)
    requires w in {"string", "int", "float", "bool", "json", "bytes"}
    ensures WhitespaceFree(w)
  {
    forall c | c in w ensures !PySpace(c) {
      assert 'a' <= c <= 'z';
    }
  }
}
