// Dependency graphs: node -> the set of nodes that must come first.

module Graph {
  import opened Order

  type Graph = map<string, set<string>>

  ghost predicate Closed(g: Graph)
  {
    forall v :: v in g ==> g[v] <= g.Keys
  }

  // A walk follows dependency edges, from a node to something it depends on.
  ghost predicate IsWalk(g: Graph, p: seq<string>)
  {
    && |p| > 0
    && (forall i :: 0 <= i < |p| ==> p[i] in g)
    && (forall i :: 0 <= i < |p| - 1 ==> p[i + 1] in g[p[i]])
  }

  ghost predicate IsCycle(g: Graph, p: seq<string>)
  {
    |p| >= 2 && IsWalk(g, p) && p[0] == p[|p| - 1]
  }

  ghost predicate Acyclic(g: Graph)
  {
    forall p :: !IsCycle(g, p)
  }

  // A dependency chain of n edges starts at v.
  ghost predicate HasChain(g: Graph, v: string, n: nat)
    decreases n
  {
    v in g && (n == 0 || exists d :: d in g[v] && HasChain(g, d, n - 1))
  }

  // n is the length of the longest dependency chain from v.
  ghost predicate IsDepth(g: Graph, v: string, n: nat)
  {
    HasChain(g, v, n) && !HasChain(g, v, n + 1)
  }

  lemma {:induction false} ChainPrefix(g: Graph, v: string, m: nat, n: nat)
    requires HasChain(g, v, n) && m <= n
    ensures HasChain(g, v, m)
    decreases n
  {
    if m > 0 {
      var d :| d in g[v] && HasChain(g, d, n - 1);
      ChainPrefix(g, d, m - 1, n - 1);
    }
  }

  // Chains are walks.
  lemma {:induction false} ChainIsWalk(g: Graph, v: string, n: nat) returns (p: seq<string>)
    requires HasChain(g, v, n)
    ensures IsWalk(g, p) && |p| == n + 1 && p[0] == v
    decreases n
  {
    if n == 0 {
      p := [v];
    } else {
      var d :| d in g[v] && HasChain(g, d, n - 1);
      var q := ChainIsWalk(g, d, n - 1);
      p := [v] + q;
      forall i | 0 <= i < |p| - 1 ensures p[i + 1] in g[p[i]] {
        if i > 0 {
          assert p[i] == q[i - 1] && p[i + 1] == q[i];
        }
      }
    }
  }

  lemma {:induction false} Pigeonhole(p: seq<string>, s: set<string>)
    requires Elems(p) <= s && |p| > |s|
    ensures !Distinct(p)
  {
    if Distinct(p) {
      DistinctCardinality(p);
      SubsetCardinality(Elems(p), s);
      assert false;
    }
  }

  lemma {:induction false} SubsetCardinality<T>(a: set<T>, b: set<T>)
    requires a <= b
    ensures |a| <= |b|
    ensures |a| == |b| ==> a == b
    decreases a
  {
    if a != {} {
      var x :| x in a;
      SubsetCardinality(a - {x}, b - {x});
    }
  }

  lemma MissingMember<T>(a: set<T>, b: set<T>)
    requires |a| < |b|
    ensures b - a != {}
  {
    if b - a == {} {
      assert forall x :: x in b ==> x !in b - a;
      SubsetCardinality(b, a);
    }
  }

  // A walk longer than the graph runs around a cycle.
  lemma LongWalkHasCycle(g: Graph, p: seq<string>)
    requires IsWalk(g, p) && |p| > |g.Keys|
    ensures !Acyclic(g)
  {
    assert Elems(p) <= g.Keys;
    Pigeonhole(p, g.Keys);
    var i, j :| 0 <= i < j < |p| && p[i] == p[j];
    var q := p[i..j + 1];
    assert forall k :: 0 <= k < |q| ==> q[k] == p[i + k];
    assert IsCycle(g, q);
  }

  // A nonempty set in which every node still waits for another member holds a cycle.
  lemma StuckHasCycle(g: Graph, stuck: set<string>)
    requires stuck != {} && stuck <= g.Keys
    requires forall v :: v in stuck ==> g[v] * stuck != {}
    ensures !Acyclic(g)
  {
    var v :| v in stuck;
    StuckChain(g, stuck, v, |g.Keys|);
    var p := ChainIsWalk(g, v, |g.Keys|);
    LongWalkHasCycle(g, p);
  }

  lemma {:induction false} StuckChain(g: Graph, stuck: set<string>, v: string, n: nat)
    requires stuck <= g.Keys && v in stuck
    requires forall w :: w in stuck ==> g[w] * stuck != {}
    ensures HasChain(g, v, n)
    decreases n
  {
    if n > 0 {
      var d :| d in g[v] * stuck;
      StuckChain(g, stuck, d, n - 1);
    }
  }

  // A numbering that decreases along every dependency rules cycles out.
  lemma RankedIsAcyclic(g: Graph, rank: map<string, nat>)
    requires rank.Keys >= g.Keys
    requires forall v, d :: v in g && d in g[v] && d in g ==> rank[d] < rank[v]
    ensures Acyclic(g)
  {
    forall p ensures !IsCycle(g, p) {
      if IsCycle(g, p) {
        RankAlongWalk(g, rank, p, |p| - 1);
        assert false;
      }
    }
  }

  lemma {:induction false} RankAlongWalk(g: Graph, rank: map<string, nat>, p: seq<string>, k: nat)
    requires rank.Keys >= g.Keys
    requires forall v, d :: v in g && d in g[v] && d in g ==> rank[d] < rank[v]
    requires IsWalk(g, p) && 0 < k < |p|
    ensures rank[p[k]] < rank[p[0]]
  {
    assert p[k] in g[p[k - 1]];
    if k > 1 {
      RankAlongWalk(g, rank, p, k - 1);
    }
  }

  // In an acyclic graph every node has a depth.
  lemma DepthExists(g: Graph, v: string) returns (n: nat)
    requires Acyclic(g) && v in g
    ensures IsDepth(g, v, n)
  {
    n := 0;
    while HasChain(g, v, n + 1)
      invariant HasChain(g, v, n)
      decreases |g.Keys| - n
    {
      if n + 1 >= |g.Keys| {
        var p := ChainIsWalk(g, v, n + 1);
        LongWalkHasCycle(g, p);
        assert false;
      }
      n := n + 1;
    }
  }

  // Edges of g are sent to edges of h.
  ghost predicate Maps(f: map<string, string>, g: Graph, h: Graph)
  {
    && f.Keys >= g.Keys
    && (forall v :: v in g ==> f[v] in h)
    && forall v, d :: v in g && d in g && d in g[v] ==> f[d] in h[f[v]]
  }

  lemma AcyclicAlong(f: map<string, string>, g: Graph, h: Graph)
    requires Maps(f, g, h) && Acyclic(h)
    ensures Acyclic(g)
  {
    forall p ensures !IsCycle(g, p) {
      if IsCycle(g, p) {
        var q := seq(|p|, i requires 0 <= i < |p| => f[p[i]]);
        forall i | 0 <= i < |q| - 1 ensures q[i + 1] in h[q[i]] {
          assert p[i + 1] in g[p[i]];
        }
        assert IsCycle(h, q);
      }
    }
  }
}
