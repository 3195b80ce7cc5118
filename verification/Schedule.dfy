// Execution ordering: topological_order of the Python adapters.

module Schedule {
  import opened Order
  import opened Graph

  // ---- The order as a function of the dependency graph ------------------------------

  ghost function Sources(g: Graph): set<string>
  {
    set v | v in g && g[v] == {}
  }

  // What becomes ready when u is scheduled after done.
  ghost function Released(g: Graph, done: seq<string>, u: string): set<string>
  {
    set v | v in g && u in g[v] && g[v] <= Elems(done) + {u}
  }

  // done has been scheduled and ready is the queue: together they are, without repetition,
  // exactly the nodes whose dependencies are all done.
  ghost predicate Frontier(g: Graph, done: seq<string>, ready: seq<string>)
  {
    && Closed(g)
    && Distinct(done + ready)
    && (forall v :: v in done + ready <==> v in g && g[v] <= Elems(done))
  }

  // Kahn's algorithm with a first-in first-out queue, on sets of dependencies.
  ghost function Kahn(g: Graph, done: seq<string>, ready: seq<string>): seq<string>
    requires Frontier(g, done, ready)
    decreases |g.Keys| - |done|
  {
    if ready == [] then done else
      var u := ready[0];
      FrontierStep(g, done, ready);
      FrontierBound(g, done, ready);
      Kahn(g, done + [u], ready[1..] + SortedSet(Released(g, done, u)))
  }

  ghost function ExecutionOrder(g: Graph): seq<string>
    requires Closed(g)
  {
    FrontierStart(g);
    Kahn(g, [], SortedSet(Sources(g)))
  }

  lemma FrontierStart(g: Graph)
    requires Closed(g)
    ensures Frontier(g, [], SortedSet(Sources(g)))
  {
    SortedSetIsSorted(Sources(g));
    var ready := SortedSet(Sources(g));
    AscendingIsDistinct(ready);
    assert [] + ready == ready;
    forall v ensures v in ready <==> v in g && g[v] <= {} {
      assert v in ready <==> v in Elems(ready);
    }
  }

  lemma FrontierBound(g: Graph, done: seq<string>, ready: seq<string>)
    requires Frontier(g, done, ready)
    ensures |done| + |ready| <= |g.Keys|
  {
    DistinctCardinality(done + ready);
    assert Elems(done + ready) <= g.Keys;
    SubsetCardinality(Elems(done + ready), g.Keys);
  }

  lemma FrontierStep(g: Graph, done: seq<string>, ready: seq<string>)
    requires Frontier(g, done, ready) && ready != []
    ensures Frontier(g, done + [ready[0]], ready[1..] + SortedSet(Released(g, done, ready[0])))
  {
    var u := ready[0];
    var all, added := done + ready, SortedSet(Released(g, done, u));
    ReleasedIsNew(g, done, ready);
    assert done + [u] + (ready[1..] + added) == all + added;
    assert Elems(done + [u]) == Elems(done) + {u};
    DistinctAppend(all, added);
    forall v ensures v in all + added <==> v in g && g[v] <= Elems(done) + {u} {
      assert v in all + added <==> v in all || v in added;
    }
  }

  lemma ReleasedIsNew(g: Graph, done: seq<string>, ready: seq<string>)
    requires Frontier(g, done, ready) && ready != []
    ensures var added := SortedSet(Released(g, done, ready[0]));
            && Distinct(added)
            && (forall v :: v in added <==> v in Released(g, done, ready[0]))
            && (forall v :: v in added ==> v !in done + ready)
  {
    var u := ready[0];
    var added := SortedSet(Released(g, done, u));
    SortedSetIsSorted(Released(g, done, u));
    AscendingIsDistinct(added);
    HeadIsNew(done, ready);
    assert forall v :: v in added <==> v in Elems(added);
    forall v | v in added ensures v !in done + ready {
      assert u in g[v] && u !in Elems(done);
    }
  }

  lemma HeadIsNew(done: seq<string>, ready: seq<string>)
    requires Distinct(done + ready) && ready != []
    ensures ready[0] !in done
  {
    var all := done + ready;
    assert all[|done|] == ready[0];
    forall k | 0 <= k < |done| ensures done[k] != ready[0] {
      assert all[k] == done[k];
    }
  }

  // ---- What the order guarantees ----------------------------------------------------

  // Every dependency stands earlier in the sequence.
  ghost predicate DependenciesFirst(g: Graph, s: seq<string>)
  {
    forall i :: 0 <= i < |s| ==> s[i] in g && g[s[i]] <= Elems(s[..i])
  }

  // The place in s of the last of deps, or -1 when s holds none of them.
  ghost function LastPlace(s: seq<string>, deps: set<string>): (p: int)
    ensures -1 <= p < |s|
    ensures p >= 0 ==> s[p] in deps
    ensures forall k :: p < k < |s| ==> s[k] !in deps
  {
    if s == [] then -1
    else if s[|s| - 1] in deps then |s| - 1
    else LastPlace(s[..|s| - 1], deps)
  }

  // u's last dependency stands earlier in done than v's, or at the same place and u is the
  // smaller id.
  ghost predicate Precedes(g: Graph, done: seq<string>, u: string, v: string)
    requires u in g && v in g
  {
    var a, b := LastPlace(done, g[u]), LastPlace(done, g[v]);
    a < b || (a == b && Lt(u, v))
  }

  // s is in the order of its nodes' last dependencies in done, and of ids among equals.
  ghost predicate Canonical(g: Graph, done: seq<string>, s: seq<string>)
  {
    && (forall i :: 0 <= i < |s| ==> s[i] in g)
    && forall i, j :: 0 <= i < j < |s| ==> Precedes(g, done, s[i], s[j])
  }

  lemma LastPlaceGrows(done: seq<string>, u: string, deps: set<string>)
    ensures LastPlace(done + [u], deps) == if u in deps then |done| else LastPlace(done, deps)
  {
    assert (done + [u])[..|done|] == done;
  }

  lemma PrecedesGrows(g: Graph, done: seq<string>, u: string, v: string, w: string)
    requires v in g && w in g && u !in g[v]
    requires if u in g[w] then true else Precedes(g, done, v, w)
    ensures Precedes(g, done + [u], v, w)
  {
    LastPlaceGrows(done, u, g[v]);
    LastPlaceGrows(done, u, g[w]);
  }

  lemma ReleasedPrecede(g: Graph, done: seq<string>, u: string, v: string, w: string)
    requires v in g && w in g && u in g[v] && u in g[w] && Lt(v, w)
    ensures Precedes(g, done + [u], v, w)
  {
    LastPlaceGrows(done, u, g[v]);
    LastPlaceGrows(done, u, g[w]);
  }

  lemma CanonicalStart(g: Graph)
    ensures Canonical(g, [], SortedSet(Sources(g)))
  {
    var ready := SortedSet(Sources(g));
    SortedSetIsSorted(Sources(g));
    forall i | 0 <= i < |ready| ensures ready[i] in g {
      assert ready[i] in Elems(ready);
    }
    forall i, j | 0 <= i < j < |ready| ensures Precedes(g, [], ready[i], ready[j]) {
      assert Lt(ready[i], ready[j]);
    }
  }

  lemma CanonicalStep(g: Graph, done: seq<string>, ready: seq<string>)
    requires Frontier(g, done, ready) && ready != [] && Canonical(g, done, done + ready)
    ensures Canonical(g, done + [ready[0]], done + ready + SortedSet(Released(g, done, ready[0])))
  {
    var u := ready[0];
    var all, added := done + ready, SortedSet(Released(g, done, u));
    SortedSetIsSorted(Released(g, done, u));
    HeadIsNew(done, ready);
    forall v | v in all ensures v in g && u !in g[v] {
      assert u !in Elems(done);
    }
    forall v | v in added ensures v in g && u in g[v] {
      assert v in Elems(added);
    }
    var next := all + added;
    forall i, j | 0 <= i < j < |next| ensures Precedes(g, done + [u], next[i], next[j]) {
      if i < |all| {
        assert next[i] in all;
        if j < |all| {
          assert next[j] in all && Precedes(g, done, all[i], all[j]);
        } else {
          assert next[j] in added;
        }
        PrecedesGrows(g, done, u, next[i], next[j]);
      } else {
        assert next[i] in added && next[j] in added;
        assert Lt(added[i - |all|], added[j - |all|]);
        ReleasedPrecede(g, done, u, next[i], next[j]);
      }
    }
  }

  ghost predicate Sound(g: Graph, done: seq<string>, ready: seq<string>)
  {
    Frontier(g, done, ready) && DependenciesFirst(g, done) && Canonical(g, done, done + ready)
  }

  lemma SoundStart(g: Graph)
    requires Closed(g)
    ensures Sound(g, [], SortedSet(Sources(g)))
  {
    FrontierStart(g);
    CanonicalStart(g);
    assert [] + SortedSet(Sources(g)) == SortedSet(Sources(g));
  }

  lemma SoundStep(g: Graph, done: seq<string>, ready: seq<string>)
    requires Sound(g, done, ready) && ready != []
    ensures Sound(g, done + [ready[0]], ready[1..] + SortedSet(Released(g, done, ready[0])))
  {
    var u := ready[0];
    var added := SortedSet(Released(g, done, u));
    FrontierStep(g, done, ready);
    ScheduleNext(g, done, ready);
    CanonicalStep(g, done, ready);
    Regroup(done, ready, added);
  }

  lemma Regroup<T>(done: seq<T>, ready: seq<T>, added: seq<T>)
    requires ready != []
    ensures (done + [ready[0]]) + (ready[1..] + added) == done + ready + added
    ensures |done + [ready[0]]| == |done| + 1
  {
    assert ready == [ready[0]] + ready[1..];
  }

  lemma {:induction false} KahnGuarantees(g: Graph, done: seq<string>, ready: seq<string>)
    requires Sound(g, done, ready)
    ensures Sound(g, Kahn(g, done, ready), [])
    decreases |g.Keys| - |done|
  {
    if ready != [] {
      FrontierBound(g, done, ready);
      SoundStep(g, done, ready);
      KahnGuarantees(g, done + [ready[0]], ready[1..] + SortedSet(Released(g, done, ready[0])));
    }
  }

  lemma ScheduleNext(g: Graph, done: seq<string>, ready: seq<string>)
    requires Frontier(g, done, ready) && ready != [] && DependenciesFirst(g, done)
    ensures DependenciesFirst(g, done + [ready[0]])
  {
    var s := done + [ready[0]];
    assert ready[0] in done + ready;
    assert s[..|done|] == done;
    forall i | 0 <= i < |done| ensures s[i] in g && g[s[i]] <= Elems(s[..i]) {
      assert s[..i] == done[..i];
    }
  }

  lemma OrderGuarantees(g: Graph)
    requires Closed(g)
    ensures Sound(g, ExecutionOrder(g), [])
  {
    SoundStart(g);
    KahnGuarantees(g, [], SortedSet(Sources(g)));
  }

  // The order lists no node twice and puts every dependency before its dependents.
  lemma OrderIsSound(g: Graph)
    requires Closed(g)
    ensures var r := ExecutionOrder(g);
            Distinct(r) && Elems(r) <= g.Keys && DependenciesFirst(g, r)
  {
    OrderGuarantees(g);
    var r := ExecutionOrder(g);
    assert r + [] == r;
    forall v | v in Elems(r) ensures v in g {
      assert v in r + [];
    }
  }

  // Scheduling gets stuck on a cycle and on nothing else.
  lemma CompleteIffAcyclic(g: Graph)
    requires Closed(g)
    ensures |ExecutionOrder(g)| == |g.Keys| <==> Acyclic(g)
    ensures Acyclic(g) ==> Elems(ExecutionOrder(g)) == g.Keys
  {
    var r := ExecutionOrder(g);
    OrderGuarantees(g);
    OrderIsSound(g);
    DistinctCardinality(r);
    SubsetCardinality(Elems(r), g.Keys);
    if |r| == |g.Keys| {
      CompleteIsAcyclic(g, r);
    } else {
      var stuck := g.Keys - Elems(r);
      MissingMember(Elems(r), g.Keys);
      UnscheduledIsStuck(g, r);
      StuckHasCycle(g, stuck);
    }
  }

  // With the queue empty, whatever was not scheduled waits for something else that was not.
  lemma UnscheduledIsStuck(g: Graph, r: seq<string>)
    requires Frontier(g, r, [])
    ensures forall v :: v in g.Keys - Elems(r) ==> g[v] * (g.Keys - Elems(r)) != {}
  {
    assert r + [] == r;
    forall v | v in g.Keys - Elems(r) ensures g[v] * (g.Keys - Elems(r)) != {} {
      assert v !in r;
      var d :| d in g[v] && d !in Elems(r);
      assert d in g[v] * (g.Keys - Elems(r));
    }
  }

  lemma CompleteIsAcyclic(g: Graph, r: seq<string>)
    requires Distinct(r) && Elems(r) == g.Keys && DependenciesFirst(g, r)
    ensures Acyclic(g)
  {
    var rank := map v | v in g :: PositionOf(r, v);
    forall v, d | v in g && d in g[v] && d in g ensures rank[d] < rank[v] {
      var i := rank[v];
      assert d in Elems(r[..i]);
      var k :| 0 <= k < i && r[k] == d;
      assert rank[d] == k;
    }
    RankedIsAcyclic(g, rank);
  }

  ghost function PositionOf(r: seq<string>, v: string): (i: nat)
    requires v in r
    ensures i < |r| && r[i] == v
  {
    var i: nat :| i < |r| && r[i] == v;
    i
  }

  // ---- Which order it is ------------------------------------------------------------

  // Actions come in the order of their last dependency, and of their ids when that is the same.
  lemma OrderIsCanonical(g: Graph)
    requires Closed(g)
    ensures Canonical(g, ExecutionOrder(g), ExecutionOrder(g))
  {
    OrderGuarantees(g);
    assert ExecutionOrder(g) + [] == ExecutionOrder(g);
  }

  // Every node once, dependencies first, and in canonical order.
  ghost predicate Arrangement(g: Graph, r: seq<string>)
  {
    Distinct(r) && Elems(r) == g.Keys && DependenciesFirst(g, r) && Canonical(g, r, r)
  }

  // That fixes the order completely: of an acyclic graph it is the one such arrangement.
  lemma OrderIffCanonical(g: Graph, r: seq<string>)
    requires Closed(g) && Acyclic(g)
    ensures r == ExecutionOrder(g) <==> Arrangement(g, r)
  {
    OrderIsCanonical(g);
    OrderIsSound(g);
    CompleteIffAcyclic(g);
    if Arrangement(g, r) {
      DistinctCardinality(r);
      if r != ExecutionOrder(g) {
        var n := FirstDifference(r, ExecutionOrder(g));
        SameNext(g, r, ExecutionOrder(g), n);
      }
    }
  }

  lemma {:induction false} FirstDifference<T>(a: seq<T>, b: seq<T>) returns (n: nat)
    requires |a| == |b| && a != b
    ensures n < |a| && a[..n] == b[..n] && a[n] != b[n]
  {
    if a[0] != b[0] {
      n := 0;
    } else {
      assert a == [a[0]] + a[1..] && b == [b[0]] + b[1..];
      var m := FirstDifference(a[1..], b[1..]);
      n := m + 1;
      assert a[..n] == [a[0]] + a[1..][..m] && b[..n] == [b[0]] + b[1..][..m];
    }
  }

  lemma SameNext(g: Graph, a: seq<string>, b: seq<string>, n: nat)
    requires Arrangement(g, a) && Arrangement(g, b) && n < |a| && n < |b| && a[..n] == b[..n]
    ensures a[n] == b[n]
  {
    if a[n] != b[n] {
      NextPrecedes(g, a, n, b[n], b);
      NextPrecedes(g, b, n, a[n], a);
      SettledPlace(a, n, g[a[n]]);
      SettledPlace(a, n, g[b[n]]);
      SettledPlace(b, n, g[a[n]]);
      SettledPlace(b, n, g[b[n]]);
      assert Lt(a[n], b[n]) && Lt(b[n], a[n]);
      LeAntisymmetric(a[n], b[n]);
      assert false;
    }
  }

  // Whatever else b has next comes later in a.
  lemma NextPrecedes(g: Graph, a: seq<string>, n: nat, v: string, b: seq<string>)
    requires Arrangement(g, a) && Arrangement(g, b) && n < |a| && n < |b| && a[..n] == b[..n]
    requires v == b[n] && v != a[n]
    ensures Precedes(g, a, a[n], v) && g[v] <= Elems(a[..n])
  {
    forall k | 0 <= k < n ensures a[k] != v {
      assert a[k] == a[..n][k] && b[k] == b[..n][k];
    }
    assert v in Elems(b);
    var m :| 0 <= m < |a| && a[m] == v;
  }

  // A set of nodes that have all been scheduled keeps its last place.
  lemma SettledPlace(s: seq<string>, n: nat, deps: set<string>)
    requires Distinct(s) && n <= |s| && deps <= Elems(s[..n])
    ensures LastPlace(s, deps) == LastPlace(s[..n], deps) < n
  {
    forall k, d | n <= k < |s| && d in deps ensures s[k] != d {
      var m :| 0 <= m < n && s[..n][m] == d;
      assert s[m] == d;
    }
    var p, q := LastPlace(s, deps), LastPlace(s[..n], deps);
    assert q >= 0 ==> s[q] in deps;
    assert p >= 0 ==> s[..n][p] in deps;
  }

  // The documented tie-break: whatever else could run at the moment an action runs has a larger id.
  ghost predicate TiesBreakById(g: Graph, r: seq<string>)
    requires DependenciesFirst(g, r)
  {
    forall i, j :: 0 <= i < j < |r| && g[r[j]] <= Elems(r[..i]) ==> Lt(r[i], r[j])
  }

  // It can fail: "y" and "z" are both ready once "b" is done, but "a" released "z" before that.
  const CROSSING: Graph := map["a" := {}, "b" := {}, "z" := {"a"}, "y" := {"b"}]

  lemma CrossingOrder()
    ensures Closed(CROSSING) && ExecutionOrder(CROSSING) == ["a", "b", "z", "y"]
    ensures DependenciesFirst(CROSSING, ["a", "b", "z", "y"])
    ensures !TiesBreakById(CROSSING, ["a", "b", "z", "y"])
  {
    var r := ["a", "b", "z", "y"];
    CrossingDependencies();
    CrossingCanonical();
    CompleteIsAcyclic(CROSSING, r);
    OrderIffCanonical(CROSSING, r);
    assert CROSSING[r[3]] <= Elems(r[..2]);
  }

  lemma CrossingDependencies()
    ensures Closed(CROSSING)
    ensures var r := ["a", "b", "z", "y"];
            Distinct(r) && Elems(r) == CROSSING.Keys && Elems(r[..2]) == {"a", "b"} && DependenciesFirst(CROSSING, r)
  {
    var r := ["a", "b", "z", "y"];
    assert r[..2] == ["a", "b"] && r[..3] == ["a", "b", "z"];
    assert Elems(r[..3]) == {"a", "b", "z"};
  }

  lemma CrossingCanonical()
    ensures Canonical(CROSSING, ["a", "b", "z", "y"], ["a", "b", "z", "y"])
  {
    var r := ["a", "b", "z", "y"];
    assert r[0] == "a" && r[1] == "b";
    assert LastPlace(r, {}) == -1;
    assert LastPlace(r, {"a"}) == 0 && LastPlace(r, {"b"}) == 1;
    assert Lt("a", "b");
  }

  // ---- Depths -----------------------------------------------------------------------

  // Compared with an earlier node, a later one has a dependency standing at least as far back.
  ghost predicate Layered(g: Graph, all: seq<string>, bound: nat)
    requires bound <= |all|
  {
    && (forall i :: 0 <= i < |all| ==> all[i] in g)
    && forall i, j, p :: 0 <= i < j < |all| && 0 <= p < bound && all[p] in g[all[i]] ==>
         LateDependency(g, all, bound, j, p)
  }

  ghost predicate LateDependency(g: Graph, all: seq<string>, bound: nat, j: nat, p: nat)
    requires bound <= |all| && j < |all| && all[j] in g
  {
    exists q :: p <= q < bound && all[q] in g[all[j]]
  }

  lemma CanonicalIsLayered(g: Graph, all: seq<string>, bound: nat)
    requires bound <= |all| && Canonical(g, all[..bound], all)
    ensures Layered(g, all, bound)
  {
    var done := all[..bound];
    forall i, j, p | 0 <= i < j < |all| && 0 <= p < bound && all[p] in g[all[i]]
      ensures LateDependency(g, all, bound, j, p)
    {
      assert Precedes(g, done, all[i], all[j]);
      assert done[p] == all[p];
      var q := LastPlace(done, g[all[j]]);
      assert done[q] == all[q];
    }
  }

  // All dependencies stand in the scheduled part, the first bound nodes.
  ghost predicate Grounded(g: Graph, all: seq<string>, bound: nat)
    requires bound <= |all|
  {
    forall i :: 0 <= i < |all| ==> all[i] in g && g[all[i]] <= Elems(all[..bound])
  }

  // Any chain that starts at an earlier node of the schedule or queue is matched by one from
  // every later node.
  lemma {:induction false} ChainsGrow(g: Graph, all: seq<string>, bound: nat, i: nat, j: nat, n: nat)
    requires bound <= |all| && Layered(g, all, bound) && Grounded(g, all, bound)
    requires i < j < |all| && HasChain(g, all[i], n)
    ensures HasChain(g, all[j], n)
    decreases n
  {
    if n > 0 {
      var p, q := MatchDependency(g, all, bound, i, j, n - 1);
      if p < q {
        ChainsGrow(g, all, bound, p, q, n - 1);
      }
    }
  }

  lemma DoneDependency(g: Graph, all: seq<string>, bound: nat, i: nat, n: nat) returns (p: nat)
    requires bound <= |all| && Grounded(g, all, bound) && i < |all| && HasChain(g, all[i], n + 1)
    ensures p < bound && all[p] in g[all[i]] && HasChain(g, all[p], n)
  {
    var d :| d in g[all[i]] && HasChain(g, d, n);
    assert d in Elems(all[..bound]);
    p :| 0 <= p < bound && all[p] == d;
  }

  lemma MatchDependency(g: Graph, all: seq<string>, bound: nat, i: nat, j: nat, n: nat) returns (p: nat, q: nat)
    requires bound <= |all| && Layered(g, all, bound) && Grounded(g, all, bound)
    requires i < j < |all| && HasChain(g, all[i], n + 1)
    ensures p <= q < bound && HasChain(g, all[p], n) && all[q] in g[all[j]]
  {
    p := DoneDependency(g, all, bound, i, n);
    assert LateDependency(g, all, bound, j, p);
    q :| p <= q < bound && all[q] in g[all[j]];
  }

  lemma SoundIsGrounded(g: Graph, done: seq<string>, ready: seq<string>)
    requires Sound(g, done, ready)
    ensures Layered(g, done + ready, |done|) && Grounded(g, done + ready, |done|)
  {
    var all := done + ready;
    assert all[..|done|] == done;
    CanonicalIsLayered(g, all, |done|);
    forall i | 0 <= i < |all| ensures all[i] in g && g[all[i]] <= Elems(done) {
      assert all[i] in all;
    }
  }

  // The queue never spans more than two adjacent depths: a queued node is at least as deep as the
  // one at its head and at most one deeper.
  lemma QueueSpansTwoDepths(g: Graph, done: seq<string>, ready: seq<string>, k: nat, a: nat, b: nat)
    requires Sound(g, done, ready) && k < |ready|
    requires IsDepth(g, ready[0], a) && IsDepth(g, ready[k], b)
    ensures a <= b <= a + 1
  {
    SoundIsGrounded(g, done, ready);
    QueuePlaces(done, ready, k);
    QueueDepths(g, done + ready, |done|, |done| + k, a, b);
  }

  lemma QueuePlaces<T>(done: seq<T>, ready: seq<T>, k: nat)
    requires k < |ready|
    ensures |done| + k < |done + ready|
    ensures (done + ready)[|done|] == ready[0] && (done + ready)[|done| + k] == ready[k]
  {
  }

  lemma QueueDepths(g: Graph, all: seq<string>, bound: nat, k: nat, a: nat, b: nat)
    requires bound <= k < |all| && Layered(g, all, bound) && Grounded(g, all, bound)
    requires IsDepth(g, all[bound], a) && IsDepth(g, all[k], b)
    ensures a <= b <= a + 1
  {
    if bound < k {
      ChainsGrow(g, all, bound, bound, k, a);
    }
    DepthBound(g, all[k], a, b);
    if b > 0 {
      var p := DoneDependency(g, all, bound, k, b - 1);
      ChainsGrow(g, all, bound, p, bound, b - 1);
      DepthBound(g, all[bound], b - 1, a);
    }
  }

  lemma DepthBound(g: Graph, v: string, n: nat, b: nat)
    requires HasChain(g, v, n) && IsDepth(g, v, b)
    ensures n <= b
  {
    if b < n {
      ChainPrefix(g, v, b + 1, n);
    }
  }

  // Actions come in nondecreasing length of their longest dependency chain.
  lemma OrderIsByDepth(g: Graph, i: nat, j: nat, a: nat, b: nat)
    requires Closed(g) && i < j < |ExecutionOrder(g)|
    requires IsDepth(g, ExecutionOrder(g)[i], a) && IsDepth(g, ExecutionOrder(g)[j], b)
    ensures a <= b
  {
    var r := ExecutionOrder(g);
    OrderGuarantees(g);
    SoundIsGrounded(g, r, []);
    assert r + [] == r;
    ChainsGrow(g, r, |r|, i, j, a);
    DepthBound(g, r[j], a, b);
  }
}
