// internal/registry: the in-memory tool registry.

module Registry {
  import opened Order
  import opened Text
  import opened Manifest

  type ToolMap = map<string, Tool>

  // normalizeSet: the nonblank normal forms of the requested tags.
  function NormSet(caps: seq<string>): set<string>
  {
    set c | c in caps && Norm(c) != "" :: Norm(c)
  }

  // Some tag of the tool, lower-cased, is wanted.
  predicate Carries(t: Tool, want: set<string>)
  {
    exists c :: c in t.capabilities && Lower(c) in want
  }

  function MatchingIds(tools: ToolMap, want: set<string>): set<string>
  {
    set id | id in tools && Carries(tools[id], want)
  }

  ghost predicate WellKeyed(tools: ToolMap)
  {
    forall id :: id in tools ==> tools[id].id == id
  }

  // The ID-ordered tools among ids.
  ghost function SelectSorted(tools: ToolMap, ids: set<string>): seq<Tool>
    requires ids <= tools.Keys
  {
    SortedSetIsSorted(ids);
    assert forall id :: id in SortedSet(ids) ==> id in Elems(SortedSet(ids));
    Select(tools, SortedSet(ids))
  }

  ghost function LookupResult(tools: ToolMap, caps: seq<string>): seq<Tool>
  {
    SelectSorted(tools, MatchingIds(tools, NormSet(caps)))
  }

  function ToolIds(ts: seq<Tool>): seq<string>
  {
    seq(|ts|, i requires 0 <= i < |ts| => ts[i].id)
  }

  predicate IdLe(a: Tool, b: Tool)
  {
    Le(a.id, b.id)
  }

  lemma IdLeIsTotalPreorder()
    ensures TotalPreorder(IdLe)
  {
    forall x, y ensures IdLe(x, y) || IdLe(y, x) { LeTotal(x.id, y.id); }
    forall x, y, z | IdLe(x, y) && IdLe(y, z) ensures IdLe(x, z) { LeTransitive(x.id, y.id, z.id); }
  }

  lemma SortedIds(sorted: seq<Tool>)
    requires SortedBy(sorted, IdLe) && Distinct(ToolIds(sorted))
    ensures ToolIds(sorted) == SortedSet(Elems(ToolIds(sorted)))
  {
    var ids := ToolIds(sorted);
    forall i, j | 0 <= i < j < |ids| ensures Lt(ids[i], ids[j]) {
      assert IdLe(sorted[i], sorted[j]);
    }
    AscendingIsSortedSet(ids);
  }

  // What sorting a duplicate-free batch of registered tools by ID yields.
  lemma SortedBatch(tools: ToolMap, batch: seq<Tool>, sorted: seq<Tool>)
    requires Batch(tools, batch)
    requires SortedBy(sorted, IdLe) && multiset(sorted) == multiset(batch)
    ensures Elems(ToolIds(batch)) <= tools.Keys
    ensures sorted == SelectSorted(tools, Elems(ToolIds(batch)))
  {
    SameElements(sorted, batch);
    SameIds(batch, sorted);
    DistinctIds(batch, sorted);
    SortedIds(sorted);
    IdOfMember(batch);
    var ids := ToolIds(sorted);
    forall i | 0 <= i < |sorted| ensures ids[i] in tools && tools[ids[i]] == sorted[i] {
      assert sorted[i] in Elems(batch);
    }
  }

  lemma SameIds(a: seq<Tool>, b: seq<Tool>)
    requires Elems(a) == Elems(b)
    ensures Elems(ToolIds(a)) == Elems(ToolIds(b))
  {
    IdOfMember(a);
    IdOfMember(b);
    forall id ensures id in ToolIds(a) <==> id in ToolIds(b) {
      if id in ToolIds(a) {
        var t :| t in a && t.id == id;
        assert t in Elems(b);
      }
      if id in ToolIds(b) {
        var t :| t in b && t.id == id;
        assert t in Elems(a);
      }
    }
  }

  lemma IdOfMember(a: seq<Tool>)
    ensures forall id :: id in ToolIds(a) <==> exists t :: t in a && t.id == id
  {
    forall id | exists t :: t in a && t.id == id ensures id in ToolIds(a) {
      var t :| t in a && t.id == id;
      var i :| 0 <= i < |a| && a[i] == t;
      assert ToolIds(a)[i] == id;
    }
    forall id | id in ToolIds(a) ensures exists t :: t in a && t.id == id {
      var i :| 0 <= i < |a| && ToolIds(a)[i] == id;
      assert a[i] in a;
    }
  }

  lemma DistinctIds(a: seq<Tool>, b: seq<Tool>)
    requires multiset(a) == multiset(b) && Distinct(ToolIds(a))
    ensures Distinct(ToolIds(b))
  {
    assert forall i :: 0 <= i < |a| ==> ToolIds(a)[i] == a[i].id;
    assert Distinct(a);
    DistinctFromMultiset(a, b);
    SameElements(a, b);
    forall i, j | 0 <= i < j < |b| ensures ToolIds(b)[i] != ToolIds(b)[j] {
      assert b[i] in Elems(a) && b[j] in Elems(a);
      var p :| 0 <= p < |a| && a[p] == b[i];
      var q :| 0 <= q < |a| && a[q] == b[j];
      assert ToolIds(a)[p] == b[i].id && ToolIds(a)[q] == b[j].id;
    }
  }

  class MemoryRegistry {
    var tools: ToolMap

    ghost predicate Valid()
      reads this
    {
      WellKeyed(tools)
    }

    constructor ()
      ensures Valid() && tools == map[]
    {
      tools := map[];
    }

    // Inserts or replaces; refuses a blank ID and a tool without tags.
    method Register(t: Tool) returns (ok: bool)
      requires Valid()
      modifies this
      ensures Valid()
      ensures ok <==> Trim(t.id) != "" && t.capabilities != []
      ensures tools == if ok then old(tools)[t.id := t] else old(tools)
    {
      if Trim(t.id) == "" {
        return false;
      }
      if |t.capabilities| == 0 {
        return false;
      }
      tools := tools[t.id := t];
      return true;
    }

    method Lookup(caps: seq<string>) returns (matched: seq<Tool>)
      requires Valid()
      ensures matched == LookupResult(tools, caps)
    {
      var want := NormalizeSet(caps);
      if want == {} {
        assert MatchingIds(tools, want) == {};
        return [];
      }
      var batch: seq<Tool> := [];
      var left := tools.Keys;
      while left != {}
        invariant left <= tools.Keys
        invariant Elems(ToolIds(batch)) == MatchingIds(tools, want) - left
        invariant Batch(tools, batch)
        decreases left
      {
        var id :| id in left;
        var carried := AnyWanted(tools[id], want);
        if carried {
          ExtendBatch(tools, batch, tools[id]);
          batch := batch + [tools[id]];
        }
        left := left - {id};
      }
      assert Elems(ToolIds(batch)) == MatchingIds(tools, want);
      IdLeIsTotalPreorder();
      matched := SortSlice(batch, IdLe);
      SortedBatch(tools, batch, matched);
    }

    method All() returns (out: seq<Tool>)
      requires Valid()
      ensures out == SelectSorted(tools, tools.Keys)
    {
      var batch: seq<Tool> := [];
      var left := tools.Keys;
      while left != {}
        invariant left <= tools.Keys
        invariant Elems(ToolIds(batch)) == tools.Keys - left
        invariant Batch(tools, batch)
        decreases left
      {
        var id :| id in left;
        ExtendBatch(tools, batch, tools[id]);
        batch := batch + [tools[id]];
        left := left - {id};
      }
      assert Elems(ToolIds(batch)) == tools.Keys;
      IdLeIsTotalPreorder();
      out := SortSlice(batch, IdLe);
      SortedBatch(tools, batch, out);
    }
  }

  ghost predicate Batch(tools: ToolMap, batch: seq<Tool>)
  {
    && Distinct(ToolIds(batch))
    && forall t :: t in batch ==> t.id in tools && tools[t.id] == t
  }

  lemma ExtendBatch(tools: ToolMap, batch: seq<Tool>, t: Tool)
    requires Batch(tools, batch) && t.id in tools && tools[t.id] == t && t.id !in Elems(ToolIds(batch))
    ensures Batch(tools, batch + [t])
    ensures Elems(ToolIds(batch + [t])) == Elems(ToolIds(batch)) + {t.id}
  {
    assert ToolIds(batch + [t]) == ToolIds(batch) + [t.id];
  }

  method NormalizeSet(caps: seq<string>) returns (out: set<string>)
    ensures out == NormSet(caps)
  {
    out := {};
    for i := 0 to |caps|
      invariant out == NormSet(caps[..i])
    {
      var s := Norm(caps[i]);
      assert caps[..i + 1] == caps[..i] + [caps[i]];
      if s != "" {
        out := out + {s};
      }
    }
    assert caps[..|caps|] == caps;
  }

  method AnyWanted(t: Tool, want: set<string>) returns (found: bool)
    ensures found <==> Carries(t, want)
  {
    for i := 0 to |t.capabilities|
      invariant forall k :: 0 <= k < i ==> Lower(t.capabilities[k]) !in want
    {
      if Lower(t.capabilities[i]) in want {
        return true;
      }
    }
    return false;
  }

  // A lookup lists, in ID order and once each, exactly the tools carrying a wanted tag.
  lemma LookupExact(tools: ToolMap, caps: seq<string>)
    requires WellKeyed(tools)
    ensures Ascending(ToolIds(LookupResult(tools, caps)))
    ensures forall t: Tool :: t in LookupResult(tools, caps) <==>
              t.id in tools && tools[t.id] == t &&
              exists c, w :: c in t.capabilities && w in caps && Norm(w) != "" && Lower(c) == Norm(w)
  {
    var ids := MatchingIds(tools, NormSet(caps));
    SelectSortedFacts(tools, ids);
    forall t: Tool | t.id in tools && tools[t.id] == t
      ensures Carries(t, NormSet(caps)) <==>
              exists c, w :: c in t.capabilities && w in caps && Norm(w) != "" && Lower(c) == Norm(w)
    {
      if Carries(t, NormSet(caps)) {
        var c :| c in t.capabilities && Lower(c) in NormSet(caps);
        var w :| w in caps && Norm(w) != "" && Norm(w) == Lower(c);
      }
    }
  }

  lemma SelectSortedFacts(tools: ToolMap, ids: set<string>)
    requires WellKeyed(tools) && ids <= tools.Keys
    ensures ToolIds(SelectSorted(tools, ids)) == SortedSet(ids)
    ensures Ascending(ToolIds(SelectSorted(tools, ids)))
    ensures forall t: Tool :: t in SelectSorted(tools, ids) <==> t.id in ids && tools[t.id] == t
    ensures |SelectSorted(tools, ids)| == |ids|
  {
    SortedSetIsSorted(ids);
    var keys := SortedSet(ids);
    AscendingIsDistinct(keys);
    DistinctCardinality(keys);
    assert forall i :: 0 <= i < |keys| ==> keys[i] in Elems(keys);
    forall t: Tool ensures t in SelectSorted(tools, ids) <==> t.id in ids && tools[t.id] == t {
      SelectedIff(tools, ids, t);
    }
  }

  lemma SelectedIff(tools: ToolMap, ids: set<string>, t: Tool)
    requires WellKeyed(tools) && ids <= tools.Keys && Elems(SortedSet(ids)) == ids
    ensures t in SelectSorted(tools, ids) <==> t.id in ids && tools[t.id] == t
  {
    var keys, r := SortedSet(ids), SelectSorted(tools, ids);
    forall i | 0 <= i < |keys| ensures keys[i] in ids && r[i] == tools[keys[i]] {
      assert keys[i] in Elems(keys);
    }
    if t.id in ids && tools[t.id] == t {
      assert t.id in Elems(keys);
      var i :| 0 <= i < |keys| && keys[i] == t.id;
      assert r[i] == t;
    }
  }

  // A registry after registering ts one by one.
  function Load(tools: ToolMap, ts: seq<Tool>): ToolMap
  {
    if ts == [] then tools else
      var last := ts[|ts| - 1];
      Load(tools, ts[..|ts| - 1])[last.id := last]
  }

  // The last tool with an ID stays.
  lemma {:induction false} LoadLast(tools: ToolMap, ts: seq<Tool>, i: nat)
    requires i < |ts| && forall k :: i < k < |ts| ==> ts[k].id != ts[i].id
    ensures ts[i].id in Load(tools, ts) && Load(tools, ts)[ts[i].id] == ts[i]
  {
    if i < |ts| - 1 {
      LoadLast(tools, ts[..|ts| - 1], i);
    }
  }

  lemma {:induction false} LoadKeepsTools(tools: ToolMap, ts: seq<Tool>)
    requires WellKeyed(tools)
    ensures WellKeyed(Load(tools, ts))
    ensures forall id :: id in Load(tools, ts) ==>
              Load(tools, ts)[id] in ts || (id in tools && Load(tools, ts)[id] == tools[id])
  {
    if ts != [] {
      LoadKeepsTools(tools, ts[..|ts| - 1]);
    }
  }
}
