// translators/generic: the structure-preserving translation of decoded JSON into ANF.

module Translate {
  import opened Order
  import opened Manifest
  import opened Anf

  // A number is carried by the text it prints as.
  datatype Json =
    | Null
    | Bool(b: bool)
    | Num(text: string)
    | Str(s: string)
    | Arr(elems: seq<Json>)
    | Obj(fields: map<string, Json>)

  const MAX_DEPTH := 512

  predicate IsContainer(v: Json)
  {
    v.Arr? || v.Obj?
  }

  function ScalarString(v: Json): string
  {
    match v
    case Str(s) => s
    case Bool(b) => if b then "true" else "false"
    case Num(text) => text
    case _ => "null"
  }

  function ObjectName(m: map<string, Json>): string
  {
    if "name" in m && m["name"].Str? then m["name"].s
    else if "id" in m && m["id"].Str? then m["id"].s
    else ""
  }

  // At most n levels of nesting: an array's scalar element takes a level, an object's scalar
  // field does not.
  ghost predicate NestsWithin(v: Json, n: int)
    decreases v
  {
    && n >= 1
    && (v.Arr? ==> forall e :: e in v.elems ==> NestsWithin(e, n - 1))
    && (v.Obj? ==> forall k :: k in v.fields && IsContainer(v.fields[k]) ==> NestsWithin(v.fields[k], n - 1))
  }

  // ---- The entity of a keyed value ---------------------------------------------------

  function FieldProps(m: map<string, Json>, keys: seq<string>): seq<Property>
    requires forall k :: k in keys ==> k in m
  {
    if keys == [] then [] else
      var k := keys[|keys| - 1];
      FieldProps(m, keys[..|keys| - 1]) + if IsContainer(m[k]) then [] else [Property(k, ScalarString(m[k]))]
  }

  ghost function FieldEntities(v: Json, keys: seq<string>): seq<Entity>
    requires v.Obj? && forall k :: k in keys ==> k in v.fields
    decreases v, 0, |keys|
  {
    if keys == [] then [] else
      var k := keys[|keys| - 1];
      FieldEntities(v, keys[..|keys| - 1]) + if IsContainer(v.fields[k]) then [EntityFrom(k, v.fields[k])] else []
  }

  ghost function ElementEntities(key: string, v: Json, n: nat): seq<Entity>
    requires v.Arr? && n <= |v.elems|
    decreases v, 0, n
  {
    if n == 0 then [] else ElementEntities(key, v, n - 1) + [EntityFrom(key, v.elems[n - 1])]
  }

  ghost function FieldKeys(m: map<string, Json>): (keys: seq<string>)
    ensures Ascending(keys) && (forall k :: k in keys <==> k in m)
  {
    SortedSetIsSorted(m.Keys);
    assert forall k :: k in SortedSet(m.Keys) <==> k in Elems(SortedSet(m.Keys));
    SortedSet(m.Keys)
  }

  ghost function EntityFrom(key: string, v: Json): Entity
    decreases v, 1, 0
  {
    match v
    case Obj(m) => Entity(key, ObjectName(m), "", [], FieldProps(m, FieldKeys(m)), FieldEntities(v, FieldKeys(m)))
    case Arr(elems) => Entity(key, "", "", [], [], ElementEntities(key, v, |elems|))
    case _ => Entity(key, "", "", [], [Property("value", ScalarString(v))], [])
  }

  method EntityFromValue(key: string, v: Json, depth: int) returns (r: Option<Entity>)
    ensures r == if NestsWithin(v, MAX_DEPTH + 1 - depth) then Some(EntityFrom(key, v)) else None
    decreases v, 2
  {
    if depth > MAX_DEPTH {
      return None;
    }
    match v {
      case Obj(m) =>
        r := EntityFromObject(key, v, depth);
      case Arr(elems) =>
        r := EntityFromArray(key, v, depth);
      case _ =>
        r := Some(Entity(key, "", "", [], [Property("value", ScalarString(v))], []));
    }
  }

  method EntityFromObject(key: string, v: Json, depth: int) returns (r: Option<Entity>)
    requires v.Obj? && depth <= MAX_DEPTH
    ensures r == if NestsWithin(v, MAX_DEPTH + 1 - depth) then Some(EntityFrom(key, v)) else None
    decreases v, 1
  {
    var keys := SortedKeys(v.fields.Keys);
    assert keys == FieldKeys(v.fields);
    AllKeysNest(v, MAX_DEPTH - depth);
    var ok, props, children := TranslateFields(v, keys, depth);
    if !ok {
      return None;
    }
    r := Some(Entity(key, ObjectName(v.fields), "", [], props, children));
  }

  method TranslateFields(v: Json, keys: seq<string>, depth: int)
    returns (ok: bool, props: seq<Property>, children: seq<Entity>)
    requires v.Obj? && depth <= MAX_DEPTH && forall k :: k in keys ==> k in v.fields
    ensures ok <==> KeysNest(v, keys, MAX_DEPTH - depth)
    ensures ok ==> props == FieldProps(v.fields, keys) && children == FieldEntities(v, keys)
    decreases v, 0
  {
    ok, props, children := true, [], [];
    for i := 0 to |keys|
      invariant ok && KeysNest(v, keys[..i], MAX_DEPTH - depth)
      invariant props == FieldProps(v.fields, keys[..i])
      invariant children == FieldEntities(v, keys[..i])
    {
      var k := keys[i];
      FieldStep(v, keys, i, MAX_DEPTH - depth);
      if IsContainer(v.fields[k]) {
        var child := EntityFromValue(k, v.fields[k], depth + 1);
        if child.None? {
          assert k in keys;
          return false, props, children;
        }
        children := children + [child.value];
      } else {
        props := props + [Property(k, ScalarString(v.fields[k]))];
      }
    }
    assert keys[..|keys|] == keys;
  }

  ghost predicate KeysNest(v: Json, keys: seq<string>, n: int)
    requires v.Obj? && forall k :: k in keys ==> k in v.fields
  {
    forall k :: k in keys && IsContainer(v.fields[k]) ==> NestsWithin(v.fields[k], n)
  }

  lemma AllKeysNest(v: Json, n: int)
    requires v.Obj?
    ensures KeysNest(v, FieldKeys(v.fields), n) <==>
            forall k :: k in v.fields && IsContainer(v.fields[k]) ==> NestsWithin(v.fields[k], n)
  {
  }

  lemma FieldStep(v: Json, keys: seq<string>, i: nat, n: int)
    requires v.Obj? && i < |keys| && forall k :: k in keys ==> k in v.fields
    ensures keys[i] in v.fields
    ensures var some, k := keys[..i], keys[i];
            && FieldProps(v.fields, keys[..i + 1]) ==
               FieldProps(v.fields, some) +
               (if IsContainer(v.fields[k]) then [] else [Property(k, ScalarString(v.fields[k]))])
            && FieldEntities(v, keys[..i + 1]) ==
               FieldEntities(v, some) + (if IsContainer(v.fields[k]) then [EntityFrom(k, v.fields[k])] else [])
            && (KeysNest(v, keys[..i + 1], n) <==>
                KeysNest(v, some, n) && (IsContainer(v.fields[k]) ==> NestsWithin(v.fields[k], n)))
  {
    assert keys[i] in keys;
    assert keys[..i + 1][..i] == keys[..i];
    assert keys[..i + 1] == keys[..i] + [keys[i]];
  }

  method EntityFromArray(key: string, v: Json, depth: int) returns (r: Option<Entity>)
    requires v.Arr? && depth <= MAX_DEPTH
    ensures r == if NestsWithin(v, MAX_DEPTH + 1 - depth) then Some(EntityFrom(key, v)) else None
    decreases v, 0
  {
    var children: seq<Entity> := [];
    for i := 0 to |v.elems|
      invariant forall j :: 0 <= j < i ==> NestsWithin(v.elems[j], MAX_DEPTH - depth)
      invariant children == ElementEntities(key, v, i)
    {
      var child := EntityFromValue(key, v.elems[i], depth + 1);
      if child.None? {
        assert v.elems[i] in v.elems;
        return None;
      }
      children := children + [child.value];
    }
    r := Some(Entity(key, "", "", [], [], children));
  }

  // ---- The document -----------------------------------------------------------------

  const TRANSLATOR_NAME := "clawdlinux/generic-translator"

  function Headers(source: string, scope: string, time: string): seq<Header>
  {
    [Header("source", source)] + (if scope != "" then [Header("scope", scope)] else []) +
    [Header("time", time), Header("translator", TRANSLATOR_NAME)]
  }

  ghost function TopEntities(input: Json, scope: string): seq<Entity>
  {
    match input
    case Obj(m) =>
      (if FieldProps(m, FieldKeys(m)) != [] then [Entity("object", scope, "", [], FieldProps(m, FieldKeys(m)), [])]
       else []) +
      FieldEntities(input, FieldKeys(m))
    case Arr(elems) => [Entity("array", scope, "", [], [], ElementEntities("item", input, |elems|))]
    case _ => [Entity("value", scope, "", [], [Property("value", ScalarString(input))], [])]
  }

  // The values translated as entities of their own nest within the limit.
  ghost predicate Fits(input: Json)
  {
    && (input.Obj? ==> forall k :: k in input.fields && IsContainer(input.fields[k]) ==>
          NestsWithin(input.fields[k], MAX_DEPTH))
    && (input.Arr? ==> forall e :: e in input.elems ==> NestsWithin(e, MAX_DEPTH))
  }

  // An object's keys, scalar-valued and container-valued, each in order.
  method PartitionKeys(m: map<string, Json>) returns (scalars: seq<string>, containers: seq<string>)
    ensures scalars == SortedSet(set k | k in m && !IsContainer(m[k]))
    ensures containers == SortedSet(set k | k in m && IsContainer(m[k]))
  {
    var s: set<string>, c: set<string> := {}, {};
    var left := m.Keys;
    while left != {}
      invariant left <= m.Keys
      invariant s == (set k | k in m && !IsContainer(m[k])) - left
      invariant c == (set k | k in m && IsContainer(m[k])) - left
      decreases left
    {
      var k :| k in left;
      if IsContainer(m[k]) {
        c := c + {k};
      } else {
        s := s + {k};
      }
      left := left - {k};
    }
    assert s == set k | k in m && !IsContainer(m[k]);
    assert c == set k | k in m && IsContainer(m[k]);
    scalars := SortedKeys(s);
    containers := SortedKeys(c);
  }

  method TranslateDocument(input: Json, source: string, scope: string, time: string) returns (r: Option<Document>)
    ensures r == if Fits(input) then Some(Document(Headers(source, scope, time), TopEntities(input, scope), [], []))
                 else None
  {
    var entities: seq<Entity> := [];
    match input {
      case Obj(m) =>
        var top := TopObject(input, scope);
        if top.None? {
          return None;
        }
        entities := top.value;
      case Arr(elems) =>
        var children: seq<Entity> := [];
        for i := 0 to |elems|
          invariant forall j :: 0 <= j < i ==> NestsWithin(elems[j], MAX_DEPTH)
          invariant children == ElementEntities("item", input, i)
        {
          var child := EntityFromValue("item", elems[i], 1);
          if child.None? {
            assert elems[i] in input.elems;
            return None;
          }
          children := children + [child.value];
        }
        entities := [Entity("array", scope, "", [], [], children)];
      case _ =>
        entities := [Entity("value", scope, "", [], [Property("value", ScalarString(input))], [])];
    }
    r := Some(Document(Headers(source, scope, time), entities, [], []));
  }

  ghost function KeyedEntities(v: Json, keys: seq<string>): seq<Entity>
    requires v.Obj? && forall k :: k in keys ==> k in v.fields
  {
    seq(|keys|, i requires 0 <= i < |keys| => EntityFrom(keys[i], v.fields[keys[i]]))
  }

  function KeyedProps(m: map<string, Json>, keys: seq<string>): seq<Property>
    requires forall k :: k in keys ==> k in m
  {
    seq(|keys|, i requires 0 <= i < |keys| => Property(keys[i], ScalarString(m[keys[i]])))
  }

  // Splitting the ordered keys into scalars and containers first changes nothing.
  lemma {:induction false} PartitionAgrees(v: Json, keys: seq<string>)
    returns (scalars: seq<string>, containers: seq<string>)
    requires v.Obj? && Ascending(keys) && forall k :: k in keys ==> k in v.fields
    ensures Ascending(scalars) && (forall k :: k in scalars <==> k in keys && !IsContainer(v.fields[k]))
    ensures Ascending(containers) && (forall k :: k in containers <==> k in keys && IsContainer(v.fields[k]))
    ensures FieldProps(v.fields, keys) == KeyedProps(v.fields, scalars)
    ensures FieldEntities(v, keys) == KeyedEntities(v, containers)
  {
    if keys == [] {
      scalars, containers := [], [];
    } else {
      var init, k := keys[..|keys| - 1], keys[|keys| - 1];
      assert keys == init + [k];
      scalars, containers := PartitionAgrees(v, init);
      if IsContainer(v.fields[k]) {
        LastAscends(containers, keys);
        containers := containers + [k];
      } else {
        LastAscends(scalars, keys);
        scalars := scalars + [k];
      }
    }
  }

  lemma LastAscends(some: seq<string>, keys: seq<string>)
    requires keys != [] && Ascending(keys) && Ascending(some)
    requires forall k :: k in some ==> k in keys[..|keys| - 1]
    ensures Ascending(some + [keys[|keys| - 1]])
  {
    var r := some + [keys[|keys| - 1]];
    forall i | 0 <= i < |some| ensures Lt(some[i], keys[|keys| - 1]) {
      assert some[i] in some;
      assert some[i] in keys[..|keys| - 1];
      var j :| 0 <= j < |keys| - 1 && keys[..|keys| - 1][j] == some[i];
      assert keys[j] == some[i];
    }
  }

  lemma SortedParts(v: Json) returns (scalars: seq<string>, containers: seq<string>)
    requires v.Obj?
    ensures scalars == SortedSet(set k | k in v.fields && !IsContainer(v.fields[k]))
    ensures containers == SortedSet(set k | k in v.fields && IsContainer(v.fields[k]))
    ensures (forall k :: k in scalars ==> k in v.fields) && (forall k :: k in containers ==> k in v.fields)
    ensures FieldProps(v.fields, FieldKeys(v.fields)) == KeyedProps(v.fields, scalars)
    ensures FieldEntities(v, FieldKeys(v.fields)) == KeyedEntities(v, containers)
  {
    scalars, containers := PartitionAgrees(v, FieldKeys(v.fields));
    AscendingIsSortedSet(scalars);
    AscendingIsSortedSet(containers);
    assert Elems(scalars) == set k | k in v.fields && !IsContainer(v.fields[k]);
    assert Elems(containers) == set k | k in v.fields && IsContainer(v.fields[k]);
  }

  method TopObject(input: Json, scope: string) returns (r: Option<seq<Entity>>)
    requires input.Obj?
    ensures r == if Fits(input) then Some(TopEntities(input, scope)) else None
  {
    var scalars, containers := PartitionKeys(input.fields);
    ghost var s, c := SortedParts(input);
    ContainersFit(input, containers);
    var entities: seq<Entity> := [];
    if |scalars| > 0 {
      var props := ScalarProps(input.fields, scalars);
      entities := [Entity("object", scope, "", [], props, [])];
    }
    var below := ContainerEntities(input, containers);
    if below.None? {
      return None;
    }
    r := Some(entities + below.value);
  }

  method ScalarProps(m: map<string, Json>, scalars: seq<string>) returns (props: seq<Property>)
    requires forall k :: k in scalars ==> k in m
    ensures props == KeyedProps(m, scalars)
  {
    props := [];
    for i := 0 to |scalars|
      invariant props == KeyedProps(m, scalars)[..i]
    {
      props := props + [Property(scalars[i], ScalarString(m[scalars[i]]))];
    }
  }

  method ContainerEntities(v: Json, containers: seq<string>) returns (r: Option<seq<Entity>>)
    requires v.Obj? && forall k :: k in containers ==> k in v.fields
    ensures r == if KeysFit(v, containers) then Some(KeyedEntities(v, containers)) else None
  {
    var entities: seq<Entity> := [];
    for i := 0 to |containers|
      invariant forall j :: 0 <= j < i ==> NestsWithin(v.fields[containers[j]], MAX_DEPTH)
      invariant entities == KeyedEntities(v, containers)[..i]
    {
      var child := EntityFromValue(containers[i], v.fields[containers[i]], 1);
      if child.None? {
        assert containers[i] in containers;
        return None;
      }
      entities := entities + [child.value];
    }
    assert entities == KeyedEntities(v, containers);
    r := Some(entities);
  }

  ghost predicate KeysFit(v: Json, keys: seq<string>)
    requires v.Obj? && forall k :: k in keys ==> k in v.fields
  {
    forall k :: k in keys ==> NestsWithin(v.fields[k], MAX_DEPTH)
  }

  lemma ContainersFit(v: Json, containers: seq<string>)
    requires v.Obj? && containers == SortedSet(set k | k in v.fields && IsContainer(v.fields[k]))
    ensures (forall k :: k in containers ==> k in v.fields) && (Fits(v) <==> KeysFit(v, containers))
  {
    SortedSetIsSorted(set k | k in v.fields && IsContainer(v.fields[k]));
    assert forall k :: k in containers <==> k in Elems(containers);
  }
}
