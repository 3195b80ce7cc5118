// What the generic translation keeps: every scalar of the input, each in exactly one property.

module Leaves {
  import opened Order
  import opened Manifest
  import opened Anf
  import opened Translate

  datatype Sel = Key(k: string) | Index(i: nat)

  type Address = seq<Sel>

  datatype Leaf = Leaf(addr: Address, text: string)

  // The scalar an address leads to.
  function LeafAt(v: Json, addr: Address): Option<string>
    decreases |addr|
  {
    if addr == [] then (if IsContainer(v) then None else Some(ScalarString(v)))
    else match addr[0]
      case Key(k) => if v.Obj? && k in v.fields then LeafAt(v.fields[k], addr[1..]) else None
      case Index(i) => if v.Arr? && i < |v.elems| then LeafAt(v.elems[i], addr[1..]) else None
  }

  // ---- Listing the leaves ------------------------------------------------------------

  function Under(sel: Sel, ls: seq<Leaf>): seq<Leaf>
  {
    seq(|ls|, i requires 0 <= i < |ls| => Leaf([sel] + ls[i].addr, ls[i].text))
  }

  function ScalarLeaves(m: map<string, Json>, keys: seq<string>): seq<Leaf>
    requires forall k :: k in keys ==> k in m
  {
    if keys == [] then [] else
      var k := keys[|keys| - 1];
      ScalarLeaves(m, keys[..|keys| - 1]) + if IsContainer(m[k]) then [] else [Leaf([Key(k)], ScalarString(m[k]))]
  }

  ghost function ContainerLeaves(v: Json, keys: seq<string>): seq<Leaf>
    requires v.Obj? && forall k :: k in keys ==> k in v.fields
    decreases v, 0, |keys|
  {
    if keys == [] then [] else
      var k := keys[|keys| - 1];
      ContainerLeaves(v, keys[..|keys| - 1]) +
      if IsContainer(v.fields[k]) then Under(Key(k), LeavesOf(v.fields[k])) else []
  }

  ghost function ElementLeaves(v: Json, n: nat): seq<Leaf>
    requires v.Arr? && n <= |v.elems|
    decreases v, 0, n
  {
    if n == 0 then [] else ElementLeaves(v, n - 1) + Under(Index(n - 1), LeavesOf(v.elems[n - 1]))
  }

  ghost function LeavesOf(v: Json): seq<Leaf>
    decreases v, 1, 0
  {
    match v
    case Obj(m) => ScalarLeaves(m, FieldKeys(m)) + ContainerLeaves(v, FieldKeys(m))
    case Arr(elems) => ElementLeaves(v, |elems|)
    case _ => [Leaf([], ScalarString(v))]
  }

  lemma UnderMembers(sel: Sel, ls: seq<Leaf>)
    ensures forall l :: l in Under(sel, ls) <==> l.addr != [] && l.addr[0] == sel && Leaf(l.addr[1..], l.text) in ls
  {
    var r := Under(sel, ls);
    forall l | l in r ensures l.addr != [] && l.addr[0] == sel && Leaf(l.addr[1..], l.text) in ls {
      var i :| 0 <= i < |r| && r[i] == l;
      assert l.addr[1..] == ls[i].addr;
      assert ls[i] == Leaf(l.addr[1..], l.text);
    }
    forall l: Leaf | l.addr != [] && l.addr[0] == sel && Leaf(l.addr[1..], l.text) in ls ensures l in r {
      var i :| 0 <= i < |ls| && ls[i] == Leaf(l.addr[1..], l.text);
      assert [sel] + l.addr[1..] == l.addr;
      assert r[i] == l;
    }
  }

  lemma {:induction false} ScalarLeafMembers(m: map<string, Json>, keys: seq<string>, l: Leaf)
    requires forall k :: k in keys ==> k in m
    ensures l in ScalarLeaves(m, keys) <==>
            |l.addr| == 1 && l.addr[0].Key? && l.addr[0].k in keys && !IsContainer(m[l.addr[0].k]) &&
            l.text == ScalarString(m[l.addr[0].k])
  {
    if keys != [] {
      var k := keys[|keys| - 1];
      assert keys == keys[..|keys| - 1] + [k];
      ScalarLeafMembers(m, keys[..|keys| - 1], l);
      if |l.addr| == 1 && l.addr[0] == Key(k) {
        assert l.addr == [Key(k)];
      }
    }
  }

  lemma {:induction false} ContainerLeafMembers(v: Json, keys: seq<string>, l: Leaf)
    requires v.Obj? && forall k :: k in keys ==> k in v.fields
    ensures l in ContainerLeaves(v, keys) <==>
            l.addr != [] && l.addr[0].Key? && l.addr[0].k in keys && IsContainer(v.fields[l.addr[0].k]) &&
            Leaf(l.addr[1..], l.text) in LeavesOf(v.fields[l.addr[0].k])
  {
    if keys != [] {
      var k := keys[|keys| - 1];
      assert keys == keys[..|keys| - 1] + [k];
      ContainerLeafMembers(v, keys[..|keys| - 1], l);
      UnderMembers(Key(k), LeavesOf(v.fields[k]));
    }
  }

  lemma {:induction false} ElementLeafMembers(v: Json, n: nat, l: Leaf)
    requires v.Arr? && n <= |v.elems|
    ensures l in ElementLeaves(v, n) <==>
            l.addr != [] && l.addr[0].Index? && l.addr[0].i < n &&
            Leaf(l.addr[1..], l.text) in LeavesOf(v.elems[l.addr[0].i])
  {
    if n > 0 {
      ElementLeafMembers(v, n - 1, l);
      UnderMembers(Index(n - 1), LeavesOf(v.elems[n - 1]));
    }
  }

  // The listing holds a leaf exactly when its address leads to that scalar.
  lemma {:induction false} LeavesExact(v: Json, l: Leaf)
    ensures l in LeavesOf(v) <==> LeafAt(v, l.addr) == Some(l.text)
    decreases |l.addr|
  {
    var below := if l.addr == [] then l else Leaf(l.addr[1..], l.text);
    match v {
      case Obj(m) =>
        ScalarLeafMembers(m, FieldKeys(m), l);
        ContainerLeafMembers(v, FieldKeys(m), l);
        if l.addr != [] && l.addr[0].Key? && l.addr[0].k in m {
          LeavesExact(m[l.addr[0].k], below);
          if |l.addr| > 1 { assert l.addr[1..] != []; }
        }
      case Arr(elems) =>
        ElementLeafMembers(v, |elems|, l);
        if l.addr != [] && l.addr[0].Index? && l.addr[0].i < |elems| {
          LeavesExact(elems[l.addr[0].i], below);
        }
      case _ =>
    }
  }

  // ---- Each leaf is listed once ------------------------------------------------------

  lemma UnderDistinct(sel: Sel, ls: seq<Leaf>)
    requires Distinct(ls)
    ensures Distinct(Under(sel, ls))
  {
    var r := Under(sel, ls);
    forall i, j | 0 <= i < j < |r| ensures r[i] != r[j] {
      assert r[i].addr[1..] == ls[i].addr && r[j].addr[1..] == ls[j].addr;
    }
  }

  lemma {:induction false} ScalarLeavesDistinct(m: map<string, Json>, keys: seq<string>)
    requires Distinct(keys) && forall k :: k in keys ==> k in m
    ensures Distinct(ScalarLeaves(m, keys))
  {
    if keys != [] {
      var init, k := keys[..|keys| - 1], keys[|keys| - 1];
      ScalarLeavesDistinct(m, init);
      forall l | l in [Leaf([Key(k)], ScalarString(m[k]))] ensures l !in ScalarLeaves(m, init) {
        ScalarLeafMembers(m, init, l);
      }
      DistinctAppend(ScalarLeaves(m, init), if IsContainer(m[k]) then [] else [Leaf([Key(k)], ScalarString(m[k]))]);
    }
  }

  lemma {:induction false} ContainerLeavesDistinct(v: Json, keys: seq<string>)
    requires v.Obj? && Distinct(keys) && forall k :: k in keys ==> k in v.fields
    ensures Distinct(ContainerLeaves(v, keys))
    decreases v, 0, |keys|
  {
    if keys != [] {
      var init, k := keys[..|keys| - 1], keys[|keys| - 1];
      ContainerLeavesDistinct(v, init);
      if IsContainer(v.fields[k]) {
        LeavesDistinct(v.fields[k]);
        UnderDistinct(Key(k), LeavesOf(v.fields[k]));
        UnderMembers(Key(k), LeavesOf(v.fields[k]));
        forall l | l in Under(Key(k), LeavesOf(v.fields[k])) ensures l !in ContainerLeaves(v, init) {
          ContainerLeafMembers(v, init, l);
        }
        DistinctAppend(ContainerLeaves(v, init), Under(Key(k), LeavesOf(v.fields[k])));
      }
    }
  }

  lemma {:induction false} ElementLeavesDistinct(v: Json, n: nat)
    requires v.Arr? && n <= |v.elems|
    ensures Distinct(ElementLeaves(v, n))
    decreases v, 0, n
  {
    if n > 0 {
      ElementLeavesDistinct(v, n - 1);
      var ls := LeavesOf(v.elems[n - 1]);
      LeavesDistinct(v.elems[n - 1]);
      UnderDistinct(Index(n - 1), ls);
      UnderMembers(Index(n - 1), ls);
      var before, added := ElementLeaves(v, n - 1), Under(Index(n - 1), ls);
      forall l | l in added ensures l !in before {
        ElementLeafMembers(v, n - 1, l);
      }
      DistinctAppend(before, added);
    }
  }

  lemma {:induction false} LeavesDistinct(v: Json)
    ensures Distinct(LeavesOf(v))
    decreases v, 1, 0
  {
    match v {
      case Obj(m) =>
        var keys := FieldKeys(m);
        AscendingIsDistinct(keys);
        ScalarLeavesDistinct(m, keys);
        ContainerLeavesDistinct(v, keys);
        forall l | l in ContainerLeaves(v, keys) ensures l !in ScalarLeaves(m, keys) {
          ContainerLeafMembers(v, keys, l);
          ScalarLeafMembers(m, keys, l);
        }
        DistinctAppend(ScalarLeaves(m, keys), ContainerLeaves(v, keys));
      case Arr(elems) =>
        ElementLeavesDistinct(v, |elems|);
      case _ =>
    }
  }

  // ---- Where the translation puts them ------------------------------------------------

  // A property of an entity forest: the types from the root down to its entity, key and value.
  datatype Place = Place(path: seq<string>, key: string, value: string)

  function Below(typ: string, ps: seq<Place>): seq<Place>
  {
    seq(|ps|, i requires 0 <= i < |ps| => Place([typ] + ps[i].path, ps[i].key, ps[i].value))
  }

  function OwnPlaces(e: Entity): seq<Place>
  {
    seq(|e.props|, i requires 0 <= i < |e.props| => Place([e.typ], e.props[i].key, e.props[i].value))
  }

  function EntityPlaces(e: Entity): seq<Place>
    decreases e, 0
  {
    OwnPlaces(e) + Below(e.typ, ForestPlaces(e.children))
  }

  function ForestPlaces(es: seq<Entity>): seq<Place>
    decreases es, 1
  {
    if es == [] then [] else ForestPlaces(es[..|es| - 1]) + EntityPlaces(es[|es| - 1])
  }

  // The place of a leaf of the value translated under a key: arrays hand their own key down.
  function PlaceOf(key: string, l: Leaf): Place
    decreases |l.addr|
  {
    if l.addr == [] then Place([key], "value", l.text)
    else if l.addr[0].Key? && |l.addr| == 1 then Place([key], l.addr[0].k, l.text)
    else
      var inner := PlaceOf(if l.addr[0].Key? then l.addr[0].k else key, Leaf(l.addr[1..], l.text));
      Place([key] + inner.path, inner.key, inner.value)
  }

  function Places(key: string, ls: seq<Leaf>): seq<Place>
  {
    seq(|ls|, i requires 0 <= i < |ls| => PlaceOf(key, ls[i]))
  }

  lemma ContainerLeavesAreDeep(v: Json)
    requires IsContainer(v)
    ensures forall l :: l in LeavesOf(v) ==> l.addr != []
  {
    forall l | l in LeavesOf(v) ensures l.addr != [] {
      LeavesExact(v, l);
    }
  }

  lemma PlacesUnderKey(key: string, k: string, ls: seq<Leaf>)
    requires forall l :: l in ls ==> l.addr != []
    ensures Places(key, Under(Key(k), ls)) == Below(key, Places(k, ls))
  {
    forall i | 0 <= i < |ls| ensures PlaceOf(key, Under(Key(k), ls)[i]) == Below(key, Places(k, ls))[i] {
      assert ls[i] in ls;
      assert ([Key(k)] + ls[i].addr)[1..] == ls[i].addr;
    }
  }

  lemma PlacesUnderIndex(key: string, n: nat, ls: seq<Leaf>)
    ensures Places(key, Under(Index(n), ls)) == Below(key, Places(key, ls))
  {
    forall i | 0 <= i < |ls| ensures PlaceOf(key, Under(Index(n), ls)[i]) == Below(key, Places(key, ls))[i] {
      assert ([Index(n)] + ls[i].addr)[1..] == ls[i].addr;
    }
  }

  lemma PlacesConcat(key: string, a: seq<Leaf>, b: seq<Leaf>)
    ensures Places(key, a + b) == Places(key, a) + Places(key, b)
  {
  }

  lemma OwnPlacesAppend(key: string, ps: seq<Property>, p: Property)
    ensures OwnPlaces(Entity(key, "", "", [], ps + [p], [])) ==
            OwnPlaces(Entity(key, "", "", [], ps, [])) + [Place([key], p.key, p.value)]
  {
  }

  lemma {:induction false} ScalarPlaces(key: string, m: map<string, Json>, keys: seq<string>)
    requires forall k :: k in keys ==> k in m
    ensures OwnPlaces(Entity(key, "", "", [], FieldProps(m, keys), [])) == Places(key, ScalarLeaves(m, keys))
  {
    if keys != [] {
      var init, k := keys[..|keys| - 1], keys[|keys| - 1];
      ScalarPlaces(key, m, init);
      var leaf := Leaf([Key(k)], ScalarString(m[k]));
      assert PlaceOf(key, leaf) == Place([key], k, ScalarString(m[k]));
      if IsContainer(m[k]) {
        assert FieldProps(m, keys) == FieldProps(m, init) && ScalarLeaves(m, keys) == ScalarLeaves(m, init);
      } else {
        PlacesConcat(key, ScalarLeaves(m, init), [leaf]);
        assert Places(key, [leaf]) == [Place([key], k, ScalarString(m[k]))];
        OwnPlacesAppend(key, FieldProps(m, init), Property(k, ScalarString(m[k])));
      }
    }
  }

  lemma {:induction false} FieldPlaces(key: string, v: Json, keys: seq<string>)
    requires v.Obj? && forall k :: k in keys ==> k in v.fields
    ensures Below(key, ForestPlaces(FieldEntities(v, keys))) == Places(key, ContainerLeaves(v, keys))
    decreases v, 0, |keys|
  {
    if keys != [] {
      var init, k := keys[..|keys| - 1], keys[|keys| - 1];
      FieldPlaces(key, v, init);
      if IsContainer(v.fields[k]) {
        TranslationPlaces(k, v.fields[k]);
        ContainerLeavesAreDeep(v.fields[k]);
        PlacesUnderKey(key, k, LeavesOf(v.fields[k]));
        AppendEntity(key, FieldEntities(v, init), EntityFrom(k, v.fields[k]));
        PlacesConcat(key, ContainerLeaves(v, init), Under(Key(k), LeavesOf(v.fields[k])));
      } else {
        assert FieldEntities(v, keys) == FieldEntities(v, init) && ContainerLeaves(v, keys) == ContainerLeaves(v, init);
      }
    }
  }

  lemma AppendEntity(key: string, es: seq<Entity>, e: Entity)
    ensures Below(key, ForestPlaces(es + [e])) == Below(key, ForestPlaces(es)) + Below(key, EntityPlaces(e))
  {
    assert (es + [e])[..|es|] == es;
  }

  lemma {:induction false} ElementPlaces(key: string, v: Json, n: nat)
    requires v.Arr? && n <= |v.elems|
    ensures Below(key, ForestPlaces(ElementEntities(key, v, n))) == Places(key, ElementLeaves(v, n))
    decreases v, 0, n
  {
    if n > 0 {
      ElementPlaces(key, v, n - 1);
      TranslationPlaces(key, v.elems[n - 1]);
      PlacesUnderIndex(key, n - 1, LeavesOf(v.elems[n - 1]));
      AppendEntity(key, ElementEntities(key, v, n - 1), EntityFrom(key, v.elems[n - 1]));
      PlacesConcat(key, ElementLeaves(v, n - 1), Under(Index(n - 1), LeavesOf(v.elems[n - 1])));
    }
  }

  // The properties of the entity are the places of the leaves, one for one.
  lemma {:induction false} TranslationPlaces(key: string, v: Json)
    ensures EntityPlaces(EntityFrom(key, v)) == Places(key, LeavesOf(v))
    decreases v, 1, 0
  {
    match v {
      case Obj(m) =>
        var keys := FieldKeys(m);
        ScalarPlaces(key, m, keys);
        FieldPlaces(key, v, keys);
        PlacesConcat(key, ScalarLeaves(m, keys), ContainerLeaves(v, keys));
      case Arr(elems) =>
        ElementPlaces(key, v, |elems|);
        assert OwnPlaces(EntityFrom(key, v)) == [];
      case _ =>
        assert EntityPlaces(EntityFrom(key, v)) == [Place([key], "value", ScalarString(v))];
    }
  }

  // ---- The document -----------------------------------------------------------------

  // The place of a leaf of the whole input: an object's own scalars go to one leading entity,
  // its containers start entities of their own, an array's elements are called items.
  function DocumentPlace(input: Json, l: Leaf): Place
  {
    if l.addr == [] then Place(["value"], "value", l.text)
    else if input.Arr? then
      var inner := PlaceOf("item", Leaf(l.addr[1..], l.text));
      Place(["array"] + inner.path, inner.key, inner.value)
    else if l.addr[0].Key? && |l.addr| == 1 then Place(["object"], l.addr[0].k, l.text)
    else PlaceOf(if l.addr[0].Key? then l.addr[0].k else "", Leaf(l.addr[1..], l.text))
  }

  function DocumentPlaces(input: Json, ls: seq<Leaf>): seq<Place>
  {
    seq(|ls|, i requires 0 <= i < |ls| => DocumentPlace(input, ls[i]))
  }

  lemma DocumentPlacesConcat(input: Json, a: seq<Leaf>, b: seq<Leaf>)
    ensures DocumentPlaces(input, a + b) == DocumentPlaces(input, a) + DocumentPlaces(input, b)
  {
  }

  lemma TopScalarPlaces(input: Json, keys: seq<string>, scope: string)
    requires input.Obj? && forall k :: k in keys ==> k in input.fields
    ensures OwnPlaces(Entity("object", scope, "", [], FieldProps(input.fields, keys), [])) ==
            DocumentPlaces(input, ScalarLeaves(input.fields, keys))
    ensures FieldProps(input.fields, keys) == [] <==> ScalarLeaves(input.fields, keys) == []
  {
    ScalarPlaces("object", input.fields, keys);
    var ls := ScalarLeaves(input.fields, keys);
    forall i | 0 <= i < |ls| ensures PlaceOf("object", ls[i]) == DocumentPlace(input, ls[i]) {
      ScalarLeafMembers(input.fields, keys, ls[i]);
      assert ls[i] in ls;
    }
    var own := OwnPlaces(Entity("object", "", "", [], FieldProps(input.fields, keys), []));
    assert |own| == |FieldProps(input.fields, keys)| && |Places("object", ls)| == |ls|;
    assert own == OwnPlaces(Entity("object", scope, "", [], FieldProps(input.fields, keys), []));
  }

  lemma {:induction false} TopContainerPlaces(input: Json, keys: seq<string>)
    requires input.Obj? && forall k :: k in keys ==> k in input.fields
    ensures ForestPlaces(FieldEntities(input, keys)) == DocumentPlaces(input, ContainerLeaves(input, keys))
  {
    if keys != [] {
      var init, k := keys[..|keys| - 1], keys[|keys| - 1];
      TopContainerPlaces(input, init);
      if IsContainer(input.fields[k]) {
        var e, ls := EntityFrom(k, input.fields[k]), LeavesOf(input.fields[k]);
        TranslationPlaces(k, input.fields[k]);
        ContainerLeavesAreDeep(input.fields[k]);
        TopPlacesUnder(input, k, ls);
        assert (FieldEntities(input, init) + [e])[..|FieldEntities(input, init)|] == FieldEntities(input, init);
        DocumentPlacesConcat(input, ContainerLeaves(input, init), Under(Key(k), ls));
      } else {
        assert FieldEntities(input, keys) == FieldEntities(input, init);
        assert ContainerLeaves(input, keys) == ContainerLeaves(input, init);
      }
    }
  }

  lemma TopPlacesUnder(input: Json, k: string, ls: seq<Leaf>)
    requires input.Obj? && forall l :: l in ls ==> l.addr != []
    ensures DocumentPlaces(input, Under(Key(k), ls)) == Places(k, ls)
  {
    forall i | 0 <= i < |ls| ensures DocumentPlace(input, Under(Key(k), ls)[i]) == PlaceOf(k, ls[i]) {
      assert ls[i] in ls;
      assert ([Key(k)] + ls[i].addr)[1..] == ls[i].addr;
    }
  }

  lemma {:induction false} ForestPlacesConcat(a: seq<Entity>, b: seq<Entity>)
    ensures ForestPlaces(a + b) == ForestPlaces(a) + ForestPlaces(b)
  {
    if b == [] {
      assert a + b == a;
    } else {
      var init, last := b[..|b| - 1], b[|b| - 1];
      ForestPlacesConcat(a, init);
      InitOfConcat(a, b);
      assert ForestPlaces(a) + (ForestPlaces(init) + EntityPlaces(last)) ==
             (ForestPlaces(a) + ForestPlaces(init)) + EntityPlaces(last);
    }
  }

  lemma OneEntityPlaces(e: Entity)
    ensures ForestPlaces([e]) == EntityPlaces(e)
  {
    assert [e][..0] == [];
  }

  lemma TopObjectPlaces(input: Json, scope: string)
    requires input.Obj?
    ensures ForestPlaces(TopEntities(input, scope)) == DocumentPlaces(input, LeavesOf(input))
  {
    var m := input.fields;
    var keys := FieldKeys(m);
    var e := Entity("object", scope, "", [], FieldProps(m, keys), []);
    TopScalarPlaces(input, keys, scope);
    TopContainerPlaces(input, keys);
    OneEntityPlaces(e);
    assert Below("object", ForestPlaces([])) == [];
    assert EntityPlaces(e) == OwnPlaces(e);
    var front := if FieldProps(m, keys) != [] then [e] else [];
    ForestPlacesConcat(front, FieldEntities(input, keys));
    DocumentPlacesConcat(input, ScalarLeaves(m, keys), ContainerLeaves(input, keys));
  }

  lemma TopArrayPlaces(input: Json, scope: string)
    requires input.Arr?
    ensures ForestPlaces(TopEntities(input, scope)) == DocumentPlaces(input, LeavesOf(input))
  {
    var n := |input.elems|;
    var kids := ElementEntities("item", input, n);
    var e := Entity("array", scope, "", [], [], kids);
    OneEntityPlaces(e);
    TopElementPlaces(input, n);
    assert OwnPlaces(e) == [];
    assert EntityPlaces(e) == Below("array", ForestPlaces(kids));
  }

  lemma TopPlacesUnderIndex(input: Json, n: nat, ls: seq<Leaf>)
    requires input.Arr?
    ensures DocumentPlaces(input, Under(Index(n), ls)) == Below("array", Places("item", ls))
  {
    forall i | 0 <= i < |ls|
      ensures DocumentPlace(input, Under(Index(n), ls)[i]) == Below("array", Places("item", ls))[i] {
      assert ([Index(n)] + ls[i].addr)[1..] == ls[i].addr;
    }
  }

  lemma {:induction false} TopElementPlaces(input: Json, n: nat)
    requires input.Arr? && n <= |input.elems|
    ensures Below("array", ForestPlaces(ElementEntities("item", input, n))) ==
            DocumentPlaces(input, ElementLeaves(input, n))
    decreases n
  {
    if n > 0 {
      var ls := LeavesOf(input.elems[n - 1]);
      TopElementPlaces(input, n - 1);
      TranslationPlaces("item", input.elems[n - 1]);
      AppendEntity("array", ElementEntities("item", input, n - 1), EntityFrom("item", input.elems[n - 1]));
      TopPlacesUnderIndex(input, n - 1, ls);
      DocumentPlacesConcat(input, ElementLeaves(input, n - 1), Under(Index(n - 1), ls));
    }
  }

  // No status and nothing inline anywhere in the forest.
  predicate Bare(e: Entity)
    decreases e, 0
  {
    e.status == "" && e.inlineProps == [] && BareForest(e.children)
  }

  predicate BareForest(es: seq<Entity>)
    decreases es, 1
  {
    forall e :: e in es ==> Bare(e)
  }

  lemma {:induction false} FieldsAreBare(v: Json, keys: seq<string>)
    requires v.Obj? && forall k :: k in keys ==> k in v.fields
    ensures forall e :: e in FieldEntities(v, keys) ==> Bare(e)
    decreases v, 0, |keys|
  {
    if keys != [] {
      FieldsAreBare(v, keys[..|keys| - 1]);
      TranslationIsBare(keys[|keys| - 1], v.fields[keys[|keys| - 1]]);
    }
  }

  lemma {:induction false} ElementsAreBare(key: string, v: Json, n: nat)
    requires v.Arr? && n <= |v.elems|
    ensures forall e :: e in ElementEntities(key, v, n) ==> Bare(e)
    decreases v, 0, n
  {
    if n > 0 {
      ElementsAreBare(key, v, n - 1);
      TranslationIsBare(key, v.elems[n - 1]);
    }
  }

  lemma {:induction false} TranslationIsBare(key: string, v: Json)
    ensures Bare(EntityFrom(key, v))
    decreases v, 1, 0
  {
    match v {
      case Obj(m) => FieldsAreBare(v, FieldKeys(m));
      case Arr(elems) => ElementsAreBare(key, v, |elems|);
      case _ =>
    }
  }

  lemma TopIsBare(input: Json, scope: string)
    ensures forall e :: e in TopEntities(input, scope) ==> Bare(e)
  {
    match input {
      case Obj(m) => FieldsAreBare(input, FieldKeys(m));
      case Arr(elems) => ElementsAreBare("item", input, |elems|);
      case _ =>
    }
  }

  // Translation keeps everything and infers nothing: the scalars of the input, each listed once,
  // are one for one the properties of the document, each at the place its keys name, and no
  // entity carries a status or inline property.
  lemma NothingDroppedNothingAdded(input: Json, scope: string)
    ensures Distinct(LeavesOf(input))
    ensures forall l :: l in LeavesOf(input) <==> LeafAt(input, l.addr) == Some(l.text)
    ensures ForestPlaces(TopEntities(input, scope)) == DocumentPlaces(input, LeavesOf(input))
    ensures forall e :: e in TopEntities(input, scope) ==> Bare(e)
  {
    LeavesDistinct(input);
    forall l ensures l in LeavesOf(input) <==> LeafAt(input, l.addr) == Some(l.text) {
      LeavesExact(input, l);
    }
    TopIsBare(input, scope);
    match input {
      case Obj(m) => TopObjectPlaces(input, scope);
      case Arr(elems) => TopArrayPlaces(input, scope);
      case _ => TopScalarPlace(input, scope);
    }
  }

  lemma TopScalarPlace(input: Json, scope: string)
    requires !IsContainer(input)
    ensures ForestPlaces(TopEntities(input, scope)) == DocumentPlaces(input, LeavesOf(input))
  {
    var e := Entity("value", scope, "", [], [Property("value", ScalarString(input))], []);
    OneEntityPlaces(e);
    assert EntityPlaces(e) == [Place(["value"], "value", ScalarString(input))];
  }

  function PropKeys(ps: seq<Property>): seq<string>
  {
    seq(|ps|, i requires 0 <= i < |ps| => ps[i].key)
  }

  function Types(es: seq<Entity>): seq<string>
  {
    seq(|es|, i requires 0 <= i < |es| => es[i].typ)
  }

  // An object's properties are its scalar fields and its children its container fields, each in
  // strict key order.
  lemma ObjectFieldsInOrder(key: string, v: Json)
    requires v.Obj?
    ensures var e := EntityFrom(key, v);
            && PropKeys(e.props) == SortedSet(set k | k in v.fields && !IsContainer(v.fields[k]))
            && Types(e.children) == SortedSet(set k | k in v.fields && IsContainer(v.fields[k]))
            && Ascending(PropKeys(e.props)) && Ascending(Types(e.children))
  {
    var scalars, containers := SortedParts(v);
    SortedSetIsSorted(set k | k in v.fields && !IsContainer(v.fields[k]));
    SortedSetIsSorted(set k | k in v.fields && IsContainer(v.fields[k]));
    KeyedPropKeys(v.fields, scalars);
    KeyedTypes(v, containers);
  }

  lemma KeyedPropKeys(m: map<string, Json>, keys: seq<string>)
    requires forall k :: k in keys ==> k in m
    ensures PropKeys(KeyedProps(m, keys)) == keys
  {
  }

  lemma KeyedTypes(v: Json, keys: seq<string>)
    requires v.Obj? && forall k :: k in keys ==> k in v.fields
    ensures Types(KeyedEntities(v, keys)) == keys
  {
  }

  // ---- The depth limit --------------------------------------------------------------

  function ValueAt(v: Json, addr: Address): Option<Json>
    decreases |addr|
  {
    if addr == [] then Some(v)
    else match addr[0]
      case Key(k) => if v.Obj? && k in v.fields then ValueAt(v.fields[k], addr[1..]) else None
      case Index(i) => if v.Arr? && i < |v.elems| then ValueAt(v.elems[i], addr[1..]) else None
  }

  // n steps down from v stands a value that becomes an entity: an array element or a container.
  ghost predicate EntityAt(v: Json, addr: Address, n: nat)
  {
    && |addr| == n > 0
    && ValueAt(v, addr).Some?
    && (addr[n - 1].Index? || IsContainer(ValueAt(v, addr).value))
  }

  lemma {:induction false} DeepEntityIsTooDeep(v: Json, addr: Address, n: nat)
    requires EntityAt(v, addr, n)
    ensures !NestsWithin(v, n)
    decreases n
  {
    var sel, rest := addr[0], addr[1..];
    var w := if sel.Key? then v.fields[sel.k] else v.elems[sel.i];
    assert ValueAt(v, addr) == ValueAt(w, rest);
    if n == 1 {
      assert ValueAt(w, rest) == Some(w);
      assert !NestsWithin(w, n - 1);
    } else {
      assert rest[n - 2] == addr[n - 1];
      DeepEntityIsTooDeep(w, rest, n - 1);
      assert rest[0].Key? || rest[0].Index?;
    }
    assert sel.Index? ==> w in v.elems;
  }

  lemma {:induction false} TooDeepHasEntity(v: Json, n: nat) returns (addr: Address)
    requires n > 0 && !NestsWithin(v, n)
    ensures EntityAt(v, addr, n)
    decreases n
  {
    var sel, w;
    if v.Arr? {
      var e :| e in v.elems && !NestsWithin(e, n - 1);
      var i :| 0 <= i < |v.elems| && v.elems[i] == e;
      sel, w := Index(i), e;
    } else {
      var k :| k in v.fields && IsContainer(v.fields[k]) && !NestsWithin(v.fields[k], n - 1);
      sel, w := Key(k), v.fields[k];
    }
    if n == 1 {
      addr := [sel];
      assert addr[1..] == [];
    } else {
      var rest := TooDeepHasEntity(w, n - 1);
      addr := [sel] + rest;
      assert addr[1..] == rest && addr[n - 1] == rest[n - 2];
    }
  }

  ghost predicate BeyondLimit(v: Json, addr: Address)
  {
    EntityAt(v, addr, MAX_DEPTH + 1)
  }

  // Translation fails exactly when an entity would stand more than the limit below the document.
  lemma FailsIffTooDeep(input: Json)
    ensures !Fits(input) <==> exists addr :: BeyondLimit(input, addr)
  {
    assert Fits(input) <==> NestsWithin(input, MAX_DEPTH + 1);
    if !NestsWithin(input, MAX_DEPTH + 1) {
      var addr := TooDeepHasEntity(input, MAX_DEPTH + 1);
      assert BeyondLimit(input, addr);
    }
    if addr :| BeyondLimit(input, addr) {
      DeepEntityIsTooDeep(input, addr, MAX_DEPTH + 1);
    }
  }

  // ---- Texts, names and headers -------------------------------------------------------

  datatype ScalarKind = NullKind | BoolKind | NumKind | StrKind

  function KindOf(v: Json): Option<ScalarKind>
  {
    match v
    case Null => Some(NullKind)
    case Bool(_) => Some(BoolKind)
    case Num(_) => Some(NumKind)
    case Str(_) => Some(StrKind)
    case _ => None
  }

  // The scalar of a kind that a text stands for.
  function ReadScalar(kind: ScalarKind, text: string): Option<Json>
  {
    match kind
    case NullKind => if text == "null" then Some(Null) else None
    case BoolKind => if text == "true" then Some(Bool(true)) else if text == "false" then Some(Bool(false)) else None
    case NumKind => Some(Num(text))
    case StrKind => Some(Str(text))
  }

  // The text at a leaf stands for the scalar there.
  lemma {:induction false} LeafReadsBack(v: Json, addr: Address)
    requires LeafAt(v, addr).Some?
    ensures var x := ValueAt(v, addr);
            x.Some? && KindOf(x.value).Some? && ReadScalar(KindOf(x.value).value, LeafAt(v, addr).value) == x
    decreases |addr|
  {
    if addr == [] {
      assert "true"[0] != "false"[0];
    } else {
      var w := if addr[0].Key? then v.fields[addr[0].k] else v.elems[addr[0].i];
      LeafReadsBack(w, addr[1..]);
    }
  }

  // An entity is of its key's type. An object's is named by the object's text "name", failing that
  // by its text "id"; nothing else has a name.
  lemma EntityNamed(key: string, v: Json)
    ensures EntityFrom(key, v).typ == key
    ensures var name := EntityFrom(key, v).name;
            var byName := v.Obj? && "name" in v.fields && v.fields["name"].Str?;
            var byId := v.Obj? && "id" in v.fields && v.fields["id"].Str?;
            && (byName ==> v.fields["name"] == Str(name))
            && (!byName && byId ==> v.fields["id"] == Str(name))
            && (!byName && !byId ==> name == "")
  {
  }

  // The document's own entity, where it has one, is named by the scope.
  lemma TopEntityNamed(input: Json, scope: string)
    ensures !input.Obj? ==> |TopEntities(input, scope)| == 1 && TopEntities(input, scope)[0].name == scope
    ensures input.Obj? && (exists k :: k in input.fields && !IsContainer(input.fields[k])) ==>
              TopEntities(input, scope) != [] &&
              TopEntities(input, scope)[0].typ == "object" && TopEntities(input, scope)[0].name == scope
  {
    if input.Obj? {
      if k :| k in input.fields && !IsContainer(input.fields[k]) {
        SomeProp(input.fields, FieldKeys(input.fields), k);
      }
    }
  }

  lemma {:induction false} SomeProp(m: map<string, Json>, keys: seq<string>, k: string)
    requires (forall x :: x in keys ==> x in m) && k in keys && !IsContainer(m[k])
    ensures FieldProps(m, keys) != []
  {
    if k != keys[|keys| - 1] {
      assert keys == keys[..|keys| - 1] + [keys[|keys| - 1]];
      SomeProp(m, keys[..|keys| - 1], k);
    }
  }

  // The value of a header.
  function HeaderValue(hs: seq<Header>, key: string): Option<string>
  {
    if hs == [] then None else if hs[0].key == key then Some(hs[0].value) else HeaderValue(hs[1..], key)
  }

  // The headers tell source, time and translator, and the scope if there is one, each once.
  lemma HeadersTell(source: string, scope: string, time: string)
    ensures var hs := Headers(source, scope, time);
            && HeaderValue(hs, "source") == Some(source) && HeaderValue(hs, "time") == Some(time)
            && HeaderValue(hs, "translator") == Some("clawdlinux/generic-translator")
            && HeaderValue(hs, "scope") == (if scope == "" then None else Some(scope))
            && |hs| == if scope == "" then 3 else 4
  {
    KeysDiffer();
    var hs := Headers(source, scope, time);
    var t, r := Header("time", time), Header("translator", TRANSLATOR_NAME);
    TwoHeaders(t, r);
    if scope == "" {
      assert hs[1..] == [t, r];
    } else {
      assert hs[1..] == [Header("scope", scope), t, r] && hs[1..][1..] == [t, r];
    }
  }

  lemma TwoHeaders(t: Header, r: Header)
    requires t.key != r.key
    ensures HeaderValue([t, r], t.key) == Some(t.value) && HeaderValue([t, r], r.key) == Some(r.value)
    ensures forall k :: k != t.key && k != r.key ==> HeaderValue([t, r], k) == None
  {
    assert [t, r][1..] == [r] && [r][1..] == [];
    forall k ensures HeaderValue([r], k) == if k == r.key then Some(r.value) else None {
    }
  }

  lemma KeysDiffer()
    ensures "source" != "time" && "source" != "scope" && "source" != "translator"
    ensures "time" != "scope" && "time" != "translator" && "scope" != "translator"
  {
    assert "source"[0] == 's' && "time"[0] == 't' && "scope"[1] == 'c' && "source"[1] == 'o' && "translator"[1] == 'r';
    assert "time"[1] == 'i';
  }
}
