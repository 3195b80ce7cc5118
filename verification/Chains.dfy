// Dependency chains compared by length and then by id: they order an execution before it is run.

module Chains {
  import opened Order
  import opened Graph
  import opened Schedule

  // ---- Comparing chains -------------------------------------------------------------

  function Front<T>(p: seq<T>): seq<T>
  {
    if p == [] then [] else p[..|p| - 1]
  }

  // The shorter chain comes first; of two as long, the one with the smaller id at the first
  // difference.
  ghost predicate Before(p: seq<string>, q: seq<string>)
    decreases |p|
  {
    || |p| < |q|
    || (|p| == |q| > 0 &&
        (Before(Front(p), Front(q)) || (Front(p) == Front(q) && Lt(p[|p| - 1], q[|q| - 1]))))
  }

  lemma BeforeAppend(p: seq<string>, a: string, q: seq<string>, b: string)
    ensures Before(p + [a], q + [b]) <==> Before(p, q) || (p == q && Lt(a, b))
  {
    assert Front(p + [a]) == p && Front(q + [b]) == q;
  }

  lemma FrontAndLast(p: seq<string>)
    requires p != []
    ensures p == Front(p) + [p[|p| - 1]]
  {
  }

  lemma {:induction false} BeforeIsShortlex(p: seq<string>, q: seq<string>)
    ensures Before(p, q) <==>
            |p| < |q| || (|p| == |q| && exists k :: 0 <= k < |p| && DifferAt(p, q, k))
    decreases |p|
  {
    if |p| == |q| > 0 {
      var n := |p| - 1;
      BeforeIsShortlex(Front(p), Front(q));
      forall k | 0 <= k < n ensures DifferAt(p, q, k) <==> DifferAt(Front(p), Front(q), k) {
        assert Front(p)[..k] == p[..k] && Front(q)[..k] == q[..k];
      }
      assert DifferAt(p, q, n) <==> Front(p) == Front(q) && Lt(p[n], q[n]);
    }
  }

  // The sequences agree up to place k, and there p has the smaller id.
  ghost predicate DifferAt(p: seq<string>, q: seq<string>, k: nat)
    requires k < |p| && k < |q|
  {
    p[..k] == q[..k] && Lt(p[k], q[k])
  }

  lemma LtTransitive(a: string, b: string, c: string)
    requires Lt(a, b) && Lt(b, c)
    ensures Lt(a, c)
  {
    LeTransitive(a, b, c);
    if a == c {
      LeAntisymmetric(a, b);
    }
  }

  lemma {:induction false} BeforeTransitive(p: seq<string>, q: seq<string>, r: seq<string>)
    requires Before(p, q) && Before(q, r)
    ensures Before(p, r)
    decreases |p|
  {
    if |p| == |q| == |r| {
      var x, y, z := p[|p| - 1], q[|q| - 1], r[|r| - 1];
      if Before(Front(p), Front(q)) && Before(Front(q), Front(r)) {
        BeforeTransitive(Front(p), Front(q), Front(r));
      } else if Lt(x, y) && Lt(y, z) {
        LtTransitive(x, y, z);
      }
    }
  }

  lemma {:induction false} BeforeIrreflexive(p: seq<string>)
    ensures !Before(p, p)
    decreases |p|
  {
    if p != [] {
      BeforeIrreflexive(Front(p));
    }
  }

  lemma BeforeAsymmetric(p: seq<string>, q: seq<string>)
    requires Before(p, q)
    ensures p != q && !Before(q, p)
  {
    BeforeIrreflexive(p);
    if Before(q, p) {
      BeforeTransitive(p, q, p);
    }
  }

  // ---- The greatest chain behind a node ---------------------------------------------

  // A chain of dependencies, the first to run first, that ends in v.
  ghost predicate IsChain(g: Graph, p: seq<string>, v: string)
  {
    && p != [] && p[|p| - 1] == v
    && (forall i :: 0 <= i < |p| ==> p[i] in g)
    && forall i :: 0 <= i < |p| - 1 ==> p[i] in g[p[i + 1]]
  }

  ghost predicate IsGreatestChain(g: Graph, p: seq<string>, v: string)
  {
    IsChain(g, p, v) && forall q :: IsChain(g, q, v) ==> AtMost(q, p)
  }

  ghost predicate AtMost(q: seq<string>, p: seq<string>)
  {
    q == p || Before(q, p)
  }

  lemma AtMostTransitive(p: seq<string>, q: seq<string>, r: seq<string>)
    requires AtMost(p, q) && AtMost(q, r)
    ensures AtMost(p, r)
  {
    if Before(p, q) && Before(q, r) {
      BeforeTransitive(p, q, r);
    }
  }

  lemma AtMostAppend(p: seq<string>, q: seq<string>, a: string)
    requires AtMost(p, q)
    ensures AtMost(p + [a], q + [a])
  {
    BeforeAppend(p, a, q, a);
  }

  lemma GreatestIsUnique(g: Graph, p: seq<string>, q: seq<string>, v: string)
    requires IsGreatestChain(g, p, v) && IsGreatestChain(g, q, v)
    ensures p == q
  {
    assert AtMost(p, q) && AtMost(q, p);
    if Before(p, q) {
      BeforeAsymmetric(p, q);
    }
  }

  // Read off a schedule: the last dependency's chain, then the node.
  ghost function PlaceChain(g: Graph, r: seq<string>, i: nat): seq<string>
    requires Distinct(r) && DependenciesFirst(g, r) && i < |r|
    decreases i
  {
    SettledPlace(r, i, g[r[i]]);
    ChainUpTo(g, r, LastPlace(r, g[r[i]]), i) + [r[i]]
  }

  ghost function ChainUpTo(g: Graph, r: seq<string>, p: int, i: nat): seq<string>
    requires Distinct(r) && DependenciesFirst(g, r) && -1 <= p < i < |r|
    decreases i, 0
  {
    if p < 0 then [] else PlaceChain(g, r, p)
  }

  lemma {:induction false} PlaceChainsRise(g: Graph, r: seq<string>, i: nat, j: nat)
    requires Distinct(r) && DependenciesFirst(g, r) && Canonical(g, r, r) && i < j < |r|
    ensures Before(PlaceChain(g, r, i), PlaceChain(g, r, j))
    decreases j
  {
    var a, p := PlaceChainParts(g, r, i);
    var b, q := PlaceChainParts(g, r, j);
    PlacesRise(g, r, i, j);
    if 0 <= a < b {
      PlaceChainsRise(g, r, a, b);
    }
    BeforeAppend(p, r[i], q, r[j]);
  }

  lemma PlacesRise(g: Graph, r: seq<string>, i: nat, j: nat)
    requires Canonical(g, r, r) && i < j < |r|
    ensures r[i] in g && r[j] in g
    ensures var a, b := LastPlace(r, g[r[i]]), LastPlace(r, g[r[j]]); a < b || (a == b && Lt(r[i], r[j]))
  {
    assert Precedes(g, r, r[i], r[j]);
  }

  lemma PlaceChainParts(g: Graph, r: seq<string>, i: nat) returns (a: int, p: seq<string>)
    requires Distinct(r) && DependenciesFirst(g, r) && i < |r|
    ensures r[i] in g && a == LastPlace(r, g[r[i]]) && -1 <= a < i
    ensures p == (if a < 0 then [] else PlaceChain(g, r, a)) && PlaceChain(g, r, i) == p + [r[i]]
    ensures a >= 0 ==> p != []
  {
    SettledPlace(r, i, g[r[i]]);
    a := LastPlace(r, g[r[i]]);
    p := ChainUpTo(g, r, a, i);
  }

  lemma PlaceChainsAtMost(g: Graph, r: seq<string>, i: nat, j: nat)
    requires Distinct(r) && DependenciesFirst(g, r) && Canonical(g, r, r) && i <= j < |r|
    ensures AtMost(PlaceChain(g, r, i), PlaceChain(g, r, j))
  {
    if i < j {
      PlaceChainsRise(g, r, i, j);
    }
  }

  lemma {:induction false} PlaceChainIsChain(g: Graph, r: seq<string>, i: nat)
    requires Distinct(r) && DependenciesFirst(g, r) && i < |r|
    ensures IsChain(g, PlaceChain(g, r, i), r[i])
    decreases i
  {
    SettledPlace(r, i, g[r[i]]);
    var a := LastPlace(r, g[r[i]]);
    if a >= 0 {
      PlaceChainIsChain(g, r, a);
      ChainGrows(g, PlaceChain(g, r, a), r[a], r[i]);
    }
  }

  lemma ChainGrows(g: Graph, p: seq<string>, d: string, v: string)
    requires IsChain(g, p, d) && v in g && d in g[v]
    ensures IsChain(g, p + [v], v)
  {
  }

  // A chain of more than one node goes on from a chain that ends in a dependency.
  lemma ChainShrinks(g: Graph, q: seq<string>, v: string)
    requires IsChain(g, q, v) && |q| > 1
    ensures v in g && q[|q| - 2] in g[v] && IsChain(g, Front(q), q[|q| - 2])
  {
    assert q[|q| - 2] in g[q[|q| - 1]];
  }

  lemma {:induction false} PlaceChainIsGreatest(g: Graph, r: seq<string>, i: nat, q: seq<string>)
    requires Distinct(r) && DependenciesFirst(g, r) && Canonical(g, r, r) && i < |r|
    requires IsChain(g, q, r[i])
    ensures AtMost(q, PlaceChain(g, r, i))
    decreases |q|
  {
    SettledPlace(r, i, g[r[i]]);
    FrontAndLast(q);
    var a := LastPlace(r, g[r[i]]);
    if |q| > 1 {
      ChainShrinks(g, q, r[i]);
      var k := DependencyPlace(g, r, i, q[|q| - 2]);
      PlaceChainIsGreatest(g, r, k, Front(q));
      PlaceChainsAtMost(g, r, k, a);
      AtMostTransitive(Front(q), PlaceChain(g, r, k), PlaceChain(g, r, a));
    }
    AtMostAppend(Front(q), ChainUpTo(g, r, a, i), r[i]);
  }

  lemma DependencyPlace(g: Graph, r: seq<string>, i: nat, d: string) returns (k: nat)
    requires DependenciesFirst(g, r) && i < |r| && d in g[r[i]]
    ensures k <= LastPlace(r, g[r[i]]) && k < i && r[k] == d
  {
    assert d in Elems(r[..i]);
    k :| 0 <= k < i && r[k] == d;
  }

  // ---- The order, from the graph alone ----------------------------------------------

  // The schedule of an acyclic graph, with what is known of it.
  lemma Schedules(g: Graph)
    requires Closed(g) && Acyclic(g)
    ensures Arrangement(g, ExecutionOrder(g))
  {
    OrderIffCanonical(g, ExecutionOrder(g));
  }

  lemma PlaceIsKey(g: Graph, r: seq<string>, i: nat)
    requires Arrangement(g, r) && i < |r|
    ensures IsGreatestChain(g, PlaceChain(g, r, i), r[i])
  {
    PlaceChainIsChain(g, r, i);
    forall q | IsChain(g, q, r[i]) ensures AtMost(q, PlaceChain(g, r, i)) {
      PlaceChainIsGreatest(g, r, i, q);
    }
  }

  lemma PlaceOf(g: Graph, r: seq<string>, v: string) returns (i: nat)
    requires Elems(r) == g.Keys && v in g
    ensures i < |r| && r[i] == v
  {
    assert v in Elems(r);
    i :| 0 <= i < |r| && r[i] == v;
  }

  lemma GreatestChainExists(g: Graph, v: string)
    requires Closed(g) && Acyclic(g) && v in g
    ensures exists p :: IsGreatestChain(g, p, v)
  {
    Schedules(g);
    var i := PlaceOf(g, ExecutionOrder(g), v);
    PlaceIsKey(g, ExecutionOrder(g), i);
  }

  // The greatest of the chains that end in v.
  ghost function Key(g: Graph, v: string): (p: seq<string>)
    requires Closed(g) && Acyclic(g) && v in g
    ensures IsGreatestChain(g, p, v)
  {
    GreatestChainExists(g, v);
    var p :| IsGreatestChain(g, p, v);
    p
  }

  // The key of a node is the greatest key of its dependencies, followed by the node.
  lemma KeyUnfolds(g: Graph, v: string) returns (d: string)
    requires Closed(g) && Acyclic(g) && v in g && g[v] != {}
    ensures d in g[v] && Key(g, v) == Key(g, d) + [v]
    ensures forall e :: e in g[v] ==> AtMost(Key(g, e), Key(g, d))
  {
    Schedules(g);
    var r := ExecutionOrder(g);
    var i := PlaceOf(g, r, v);
    var some :| some in g[v];
    var k := DependencyPlace(g, r, i, some);
    SettledPlace(r, i, g[v]);
    var a: nat := LastPlace(r, g[v]);
    d := r[a];
    KeyIsPlaceChain(g, i);
    KeyIsPlaceChain(g, a);
    forall e | e in g[v] ensures AtMost(Key(g, e), Key(g, d)) {
      var m := DependencyPlace(g, r, i, e);
      KeyIsPlaceChain(g, m);
      PlaceChainsAtMost(g, r, m, a);
    }
  }

  lemma SourceKey(g: Graph, v: string)
    requires Closed(g) && Acyclic(g) && v in g && g[v] == {}
    ensures Key(g, v) == [v]
  {
    var p := Key(g, v);
    if |p| > 1 {
      ChainShrinks(g, p, v);
    }
    FrontAndLast(p);
  }

  lemma KeyIsPlaceChain(g: Graph, i: nat)
    requires Closed(g) && Acyclic(g) && i < |ExecutionOrder(g)|
    ensures Arrangement(g, ExecutionOrder(g)) && ExecutionOrder(g)[i] in g
    ensures Key(g, ExecutionOrder(g)[i]) == PlaceChain(g, ExecutionOrder(g), i)
  {
    Schedules(g);
    var r := ExecutionOrder(g);
    PlaceIsKey(g, r, i);
    GreatestIsUnique(g, Key(g, r[i]), PlaceChain(g, r, i), r[i]);
  }

  // An action runs before another exactly when its greatest dependency chain comes first.
  lemma RunsFirstIff(g: Graph, i: nat, j: nat)
    requires Closed(g) && Acyclic(g) && i < |ExecutionOrder(g)| && j < |ExecutionOrder(g)|
    ensures var r := ExecutionOrder(g);
            r[i] in g && r[j] in g && (i < j <==> Before(Key(g, r[i]), Key(g, r[j])))
  {
    var r := ExecutionOrder(g);
    KeyIsPlaceChain(g, i);
    KeyIsPlaceChain(g, j);
    if i < j {
      PlaceChainsRise(g, r, i, j);
    } else if j < i {
      PlaceChainsRise(g, r, j, i);
      BeforeAsymmetric(PlaceChain(g, r, j), PlaceChain(g, r, i));
    } else {
      BeforeIrreflexive(PlaceChain(g, r, i));
    }
  }

  ghost predicate SortedByKey(g: Graph, r: seq<string>)
    requires Closed(g) && Acyclic(g)
  {
    Elems(r) == g.Keys && forall i, j :: 0 <= i < j < |r| ==> KeyBefore(g, r[i], r[j])
  }

  ghost predicate KeyBefore(g: Graph, u: string, v: string)
    requires Closed(g) && Acyclic(g)
  {
    u in g && v in g && Before(Key(g, u), Key(g, v))
  }

  // The order of an acyclic graph is its nodes sorted by their greatest dependency chains.
  lemma OrderIffSortedByKey(g: Graph, r: seq<string>)
    requires Closed(g) && Acyclic(g)
    ensures r == ExecutionOrder(g) <==> SortedByKey(g, r)
  {
    var e := ExecutionOrder(g);
    Schedules(g);
    forall i, j | 0 <= i < j < |e| ensures KeyBefore(g, e[i], e[j]) {
      RunsFirstIff(g, i, j);
    }
    if SortedByKey(g, r) {
      SortedIsDistinct(g, r);
      DistinctCardinality(r);
      DistinctCardinality(e);
      if r != e {
        var n := FirstDifference(r, e);
        SmallestLeft(g, r, e, n);
        SmallestLeft(g, e, r, n);
        BeforeAsymmetric(Key(g, r[n]), Key(g, e[n]));
      }
    }
  }

  lemma SortedIsDistinct(g: Graph, r: seq<string>)
    requires Closed(g) && Acyclic(g) && SortedByKey(g, r)
    ensures Distinct(r)
  {
    forall i, j | 0 <= i < j < |r| ensures r[i] != r[j] {
      assert KeyBefore(g, r[i], r[j]);
      BeforeAsymmetric(Key(g, r[i]), Key(g, r[j]));
    }
  }

  lemma SmallestLeft(g: Graph, a: seq<string>, b: seq<string>, n: nat)
    requires Closed(g) && Acyclic(g) && SortedByKey(g, a) && SortedByKey(g, b)
    requires Distinct(b) && n < |a| && n < |b| && a[..n] == b[..n] && a[n] != b[n]
    ensures KeyBefore(g, a[n], b[n])
  {
    forall k | 0 <= k < n ensures a[k] != b[n] {
      assert a[k] == a[..n][k] && b[k] == b[..n][k];
    }
    assert b[n] in Elems(b);
    var m :| 0 <= m < |a| && a[m] == b[n];
  }

  // ---- The tie-break ----------------------------------------------------------------

  // What stands behind a node: the greatest chain that ends in one of its dependencies.
  ghost function Behind(g: Graph, v: string): seq<string>
    requires Closed(g) && Acyclic(g) && v in g
  {
    Front(Key(g, v))
  }

  // Of two actions the one with the smaller id runs first exactly when the chain behind it does
  // not come after the chain behind the other.
  lemma SmallerIdFirstIff(g: Graph, i: nat, j: nat)
    requires Closed(g) && Acyclic(g) && i < |ExecutionOrder(g)| && j < |ExecutionOrder(g)|
    requires Lt(ExecutionOrder(g)[i], ExecutionOrder(g)[j])
    ensures var r := ExecutionOrder(g);
            r[i] in g && r[j] in g && (i < j <==> AtMost(Behind(g, r[i]), Behind(g, r[j])))
  {
    var r := ExecutionOrder(g);
    RunsFirstIff(g, i, j);
    FrontAndLast(Key(g, r[i]));
    FrontAndLast(Key(g, r[j]));
    BeforeAppend(Behind(g, r[i]), r[i], Behind(g, r[j]), r[j]);
  }

  // v has the smaller id and the greater chain, and all it waits for comes before u.
  ghost predicate Overtakes(g: Graph, v: string, u: string)
    requires Closed(g) && Acyclic(g)
  {
    && Lt(v, u) && KeyBefore(g, u, v)
    && forall d :: d in g[v] ==> KeyBefore(g, d, u)
  }

  // The documented tie-break holds exactly when no action overtakes another: whenever the one with
  // the smaller id has the greater chain, it waits for something that does not come before the other.
  lemma TiesBreakByIdIff(g: Graph)
    requires Closed(g) && Acyclic(g)
    ensures DependenciesFirst(g, ExecutionOrder(g))
    ensures TiesBreakById(g, ExecutionOrder(g)) <==> forall u, v :: u in g && v in g ==> !Overtakes(g, v, u)
  {
    var r := ExecutionOrder(g);
    Schedules(g);
    if TiesBreakById(g, r) {
      forall u, v | u in g && v in g ensures !Overtakes(g, v, u) {
        var i := PlaceOf(g, r, u);
        var j := PlaceOf(g, r, v);
        OvertakesIff(g, i, j);
      }
    } else {
      var i, j :| 0 <= i < j < |r| && g[r[j]] <= Elems(r[..i]) && !Lt(r[i], r[j]);
      OvertakesIff(g, i, j);
    }
  }

  lemma OvertakesIff(g: Graph, i: nat, j: nat)
    requires Closed(g) && Acyclic(g) && i < |ExecutionOrder(g)| && j < |ExecutionOrder(g)|
    requires Arrangement(g, ExecutionOrder(g))
    ensures var r := ExecutionOrder(g);
            r[i] in g && r[j] in g &&
            (Overtakes(g, r[j], r[i]) <==> i < j && g[r[j]] <= Elems(r[..i]) && !Lt(r[i], r[j]))
  {
    var r := ExecutionOrder(g);
    RunsFirstIff(g, i, j);
    ReadyIff(g, i, j);
    LeTotal(r[i], r[j]);
    if Lt(r[j], r[i]) && Lt(r[i], r[j]) { LeAntisymmetric(r[i], r[j]); }
  }

  // Everything an action waits for is done by step i when it all comes before what runs then.
  lemma ReadyIff(g: Graph, i: nat, j: nat)
    requires Closed(g) && Acyclic(g) && i < |ExecutionOrder(g)| && j < |ExecutionOrder(g)|
    requires Arrangement(g, ExecutionOrder(g))
    ensures var r := ExecutionOrder(g);
            g[r[j]] <= Elems(r[..i]) <==> forall d :: d in g[r[j]] ==> KeyBefore(g, d, r[i])
  {
    var r := ExecutionOrder(g);
    forall d | d in g[r[j]] ensures d in Elems(r[..i]) <==> KeyBefore(g, d, r[i]) {
      var k := DependencyPlace(g, r, j, d);
      RunsFirstIff(g, k, i);
      InPrefixIff(r, k, i);
    }
  }

  lemma InPrefixIff(r: seq<string>, k: nat, i: nat)
    requires Distinct(r) && k < |r| && i <= |r|
    ensures r[k] in Elems(r[..i]) <==> k < i
  {
    if k < i {
      assert r[..i][k] == r[k];
    }
  }
}
