// Orders on text and the sorting the Go and Python sources take from their libraries.

module Order {

  // Code-point lexicographic order, shared by Go's sort.Strings and Python's sorted.
  predicate Le(a: string, b: string)
  {
    |a| == 0 || (|b| > 0 && (a[0] < b[0] || (a[0] == b[0] && Le(a[1..], b[1..]))))
  }

  predicate Lt(a: string, b: string)
  {
    Le(a, b) && a != b
  }

  // a is a proper prefix of b, or has the smaller character where they first differ.
  ghost predicate TextBefore(a: string, b: string)
  {
    || (|a| < |b| && b[..|a|] == a)
    || exists k :: 0 <= k < |a| && k < |b| && SmallerAt(a, b, k)
  }

  ghost predicate SmallerAt(a: string, b: string, k: nat)
    requires k < |a| && k < |b|
  {
    a[..k] == b[..k] && a[k] < b[k]
  }

  lemma {:induction false} LtIsTextBefore(a: string, b: string)
    ensures Lt(a, b) <==> TextBefore(a, b)
  {
    if a != "" && b != "" {
      var x, y := a[1..], b[1..];
      LtIsTextBefore(x, y);
      assert a == [a[0]] + x && b == [b[0]] + y;
      if a[0] == b[0] {
        TailsBefore(a, b);
      } else if a[0] < b[0] {
        assert SmallerAt(a, b, 0);
      } else {
        forall k | 0 <= k < |a| && k < |b| ensures !SmallerAt(a, b, k) {
          assert k > 0 ==> a[..k][0] == a[0] && b[..k][0] == b[0];
        }
      }
    }
  }

  lemma TailsBefore(a: string, b: string)
    requires a != "" && b != "" && a[0] == b[0]
    ensures TextBefore(a, b) <==> TextBefore(a[1..], b[1..])
  {
    var x, y := a[1..], b[1..];
    forall k | 0 <= k < |x| && k < |y| ensures SmallerAt(x, y, k) <==> SmallerAt(a, b, k + 1) {
      assert a[..k + 1] == [a[0]] + x[..k] && b[..k + 1] == [b[0]] + y[..k];
    }
    if k :| 0 <= k < |a| && k < |b| && SmallerAt(a, b, k) {
      assert SmallerAt(x, y, k - 1);
    }
    if |a| < |b| {
      assert b[..|a|] == [b[0]] + y[..|x|] && a == [a[0]] + x;
    }
  }

  lemma {:induction false} LeAntisymmetric(a: string, b: string)
    requires Le(a, b) && Le(b, a)
    ensures a == b
  {
    if |a| > 0 {
      LeAntisymmetric(a[1..], b[1..]);
      assert a == [a[0]] + a[1..] && b == [b[0]] + b[1..];
    }
  }

  lemma {:induction false} LeTransitive(a: string, b: string, c: string)
    requires Le(a, b) && Le(b, c)
    ensures Le(a, c)
  {
    if |a| > 0 && a[0] == b[0] && b[0] == c[0] {
      LeTransitive(a[1..], b[1..], c[1..]);
    }
  }

  lemma {:induction false} LeTotal(a: string, b: string)
    ensures Le(a, b) || Le(b, a)
  {
    if |a| > 0 && |b| > 0 && a[0] == b[0] {
      LeTotal(a[1..], b[1..]);
    }
  }

  ghost predicate TotalPreorder<T(!new)>(le: (T, T) -> bool)
  {
    && (forall x, y :: le(x, y) || le(y, x))
    && (forall x, y, z :: le(x, y) && le(y, z) ==> le(x, z))
  }

  lemma LeIsTotalPreorder()
    ensures TotalPreorder(Le)
  {
    forall x, y ensures Le(x, y) || Le(y, x) { LeTotal(x, y); }
    forall x, y, z | Le(x, y) && Le(y, z) ensures Le(x, z) { LeTransitive(x, y, z); }
  }

  ghost predicate SortedBy<T>(s: seq<T>, le: (T, T) -> bool)
  {
    forall i, j :: 0 <= i < j < |s| ==> le(s[i], s[j])
  }

  predicate Ascending(s: seq<string>)
  {
    forall i, j :: 0 <= i < j < |s| ==> Lt(s[i], s[j])
  }

  predicate Distinct<T(==)>(s: seq<T>)
  {
    forall i, j :: 0 <= i < j < |s| ==> s[i] != s[j]
  }

  function Elems<T>(s: seq<T>): set<T>
  {
    set x | x in s
  }

  lemma PrefixBelow<T(!new)>(r: seq<T>, k: nat, x: T, le: (T, T) -> bool)
    requires TotalPreorder(le) && SortedBy(r, le) && k <= |r|
    requires k > 0 ==> le(r[k - 1], x)
    ensures forall j :: 0 <= j < k ==> le(r[j], x)
  {
    forall j | 0 <= j < k ensures le(r[j], x) {
      assert j < k - 1 ==> le(r[j], r[k - 1]);
    }
  }

  lemma InsertionStaysSorted<T>(r: seq<T>, k: nat, x: T, le: (T, T) -> bool)
    requires SortedBy(r, le) && k <= |r|
    requires forall j :: 0 <= j < k ==> le(r[j], x)
    requires forall j :: k <= j < |r| ==> le(x, r[j])
    ensures SortedBy(r[..k] + [x] + r[k..], le)
  {
    var q := r[..k] + [x] + r[k..];
    assert forall i :: 0 <= i < |q| ==> q[i] == if i < k then r[i] else if i == k then x else r[i - 1];
  }

  lemma InitOfConcat<T>(a: seq<T>, b: seq<T>)
    requires b != []
    ensures (a + b)[..|a + b| - 1] == a + b[..|b| - 1]
    ensures (a + b)[|a + b| - 1] == b[|b| - 1]
  {
  }

  lemma MiddleOf<T>(s: seq<T>)
    requires |s| >= 2
    ensures s[..|s| - 1] != [] && s[..|s| - 1][0] == s[0]
    ensures s[..|s| - 1][1..] == s[1..][..|s[1..]| - 1]
    ensures s[1..][|s[1..]| - 1] == s[|s| - 1]
  {
  }

  // The entries of a table, in the order of a list of keys.
  ghost function Select<T>(m: map<string, T>, ids: seq<string>): seq<T>
    requires forall id :: id in ids ==> id in m
  {
    seq(|ids|, i requires 0 <= i < |ids| => m[ids[i]])
  }

  // The library sorts are used for two facts alone, so that is all the callers see:
  // the result is ordered and is a permutation of the argument. Ties may come in any order.
  method SortSlice<T(!new)>(s: seq<T>, le: (T, T) -> bool) returns (r: seq<T>)
    requires TotalPreorder(le)
    ensures SortedBy(r, le)
    ensures multiset(r) == multiset(s)
  {
    r := [];
    for i := 0 to |s|
      invariant SortedBy(r, le)
      invariant multiset(r) == multiset(s[..i])
    {
      r := InsertInto(r, s[i], le);
      assert s[..i + 1] == s[..i] + [s[i]];
    }
    assert s[..|s|] == s;
  }

  method InsertInto<T(!new)>(s: seq<T>, x: T, le: (T, T) -> bool) returns (r: seq<T>)
    requires TotalPreorder(le) && SortedBy(s, le)
    ensures SortedBy(r, le)
    ensures multiset(r) == multiset(s) + multiset{x}
  {
    var k := |s|;
    while k > 0 && !le(s[k - 1], x)
      invariant 0 <= k <= |s|
      invariant forall j :: k <= j < |s| ==> le(x, s[j])
    {
      k := k - 1;
    }
    PrefixBelow(s, k, x, le);
    InsertionStaysSorted(s, k, x, le);
    assert s == s[..k] + s[k..];
    r := s[..k] + [x] + s[k..];
  }

  lemma SameElements<T>(a: seq<T>, b: seq<T>)
    requires multiset(a) == multiset(b)
    ensures Elems(a) == Elems(b) && |a| == |b|
  {
    assert |multiset(a)| == |multiset(b)|;
    forall x ensures x in a <==> x in b {
      assert x in a <==> x in multiset(a);
      assert x in b <==> x in multiset(b);
    }
  }

  lemma DistinctFromMultiset<T>(a: seq<T>, b: seq<T>)
    requires multiset(a) == multiset(b) && Distinct(a)
    ensures Distinct(b)
  {
    forall i, j | 0 <= i < j < |b| ensures b[i] != b[j] {
      if b[i] == b[j] {
        var x := b[i];
        assert b == b[..i] + [b[i]] + b[i + 1..j] + [b[j]] + b[j + 1..];
        assert multiset(a)[x] >= 2;
        MultiplicityOfDistinct(a, x);
      }
    }
  }

  lemma {:induction false} MultiplicityOfDistinct<T>(a: seq<T>, x: T)
    requires Distinct(a)
    ensures multiset(a)[x] <= 1
  {
    if a != [] {
      assert a == [a[0]] + a[1..];
      MultiplicityOfDistinct(a[1..], x);
      if x == a[0] {
        assert x !in a[1..];
        assert x !in multiset(a[1..]);
      }
    }
  }

  lemma SortedDistinctAscends(s: seq<string>)
    requires SortedBy(s, Le) && Distinct(s)
    ensures Ascending(s)
  {
  }

  lemma {:induction false} AscendingUnique(a: seq<string>, b: seq<string>)
    requires Ascending(a) && Ascending(b) && Elems(a) == Elems(b)
    ensures a == b
  {
    if a == [] {
      assert forall j :: 0 <= j < |b| ==> b[j] in Elems(b);
    } else {
      assert a[0] in Elems(b);
      assert b != [];
      assert b[0] in Elems(a);
      var i :| 0 <= i < |b| && b[i] == a[0];
      var j :| 0 <= j < |a| && a[j] == b[0];
      if a[0] != b[0] {
        assert Lt(b[0], b[i]) && Lt(a[0], a[j]);
        LeAntisymmetric(a[0], b[0]);
        assert false;
      }
      assert Elems(a[1..]) == Elems(a) - {a[0]};
      assert Elems(b[1..]) == Elems(b) - {b[0]};
      AscendingUnique(a[1..], b[1..]);
      assert a == [a[0]] + a[1..] && b == [b[0]] + b[1..];
    }
  }

  ghost function Insert(x: string, s: seq<string>): (r: seq<string>)
  {
    if s == [] || Le(x, s[0]) then [x] + s else [s[0]] + Insert(x, s[1..])
  }

  // The members of a set in ascending order: what a Go or Python caller gets by sorting
  // the keys of a map.
  ghost function SortedSet(s: set<string>): (r: seq<string>)
    decreases s
  {
    if s == {} then [] else
      var x :| x in s;
      Insert(x, SortedSet(s - {x}))
  }

  lemma {:induction false} InsertAscends(x: string, s: seq<string>)
    requires Ascending(s) && x !in s
    ensures Ascending(Insert(x, s))
    ensures Elems(Insert(x, s)) == Elems(s) + {x}
  {
    if s == [] {
    } else if Le(x, s[0]) {
      forall j | 0 <= j < |s| ensures Lt(x, s[j]) {
        if j > 0 { LeTransitive(x, s[0], s[j]); }
      }
      assert Elems([x] + s) == Elems(s) + {x};
    } else {
      LeTotal(x, s[0]);
      InsertAscends(x, s[1..]);
      var r := Insert(x, s[1..]);
      forall j | 0 <= j < |r| ensures Lt(s[0], r[j]) {
        assert r[j] in Elems(r);
        if r[j] != x {
          assert r[j] in s[1..];
        }
      }
      assert Elems([s[0]] + r) == Elems(r) + {s[0]};
      assert s == [s[0]] + s[1..];
    }
  }

  lemma {:induction false} SortedSetIsSorted(s: set<string>)
    ensures Ascending(SortedSet(s)) && Elems(SortedSet(s)) == s
    decreases s
  {
    if s != {} {
      var x :| x in s && SortedSet(s) == Insert(x, SortedSet(s - {x}));
      SortedSetIsSorted(s - {x});
      assert x !in Elems(SortedSet(s - {x}));
      InsertAscends(x, SortedSet(s - {x}));
    }
  }

  lemma AscendingIsSortedSet(a: seq<string>)
    requires Ascending(a)
    ensures a == SortedSet(Elems(a))
  {
    SortedSetIsSorted(Elems(a));
    AscendingUnique(a, SortedSet(Elems(a)));
  }

  lemma {:induction false} DistinctCardinality<T>(a: seq<T>)
    requires Distinct(a)
    ensures |Elems(a)| == |a|
  {
    if a != [] {
      DistinctCardinality(a[1..]);
      assert a[0] !in a[1..];
      assert Elems(a) == Elems(a[1..]) + {a[0]};
    }
  }

  lemma DistinctAppend<T>(a: seq<T>, b: seq<T>)
    requires Distinct(a) && Distinct(b)
    requires forall x :: x in b ==> x !in a
    ensures Distinct(a + b)
  {
    var c := a + b;
    forall i, j | 0 <= i < j < |c| ensures c[i] != c[j] {
      if i < |a| <= j {
        assert c[j] in b;
      }
    }
  }

  lemma AscendingIsDistinct(a: seq<string>)
    requires Ascending(a)
    ensures Distinct(a)
  {
  }

  lemma SortedArrangement(out: seq<string>, r: seq<string>)
    requires Distinct(out) && SortedBy(r, Le) && multiset(r) == multiset(out)
    ensures r == SortedSet(Elems(out))
  {
    SameElements(r, out);
    DistinctFromMultiset(out, r);
    SortedDistinctAscends(r);
    AscendingIsSortedSet(r);
  }

  // Go ranges over a map in no fixed order; the keys are collected, then sorted.
  method SortedKeys(keys: set<string>) returns (r: seq<string>)
    ensures r == SortedSet(keys)
  {
    var out: seq<string> := [];
    var left := keys;
    while left != {}
      invariant left <= keys
      invariant Elems(out) == keys - left && Distinct(out)
      decreases left
    {
      var k :| k in left;
      assert k !in Elems(out);
      assert Elems(out + [k]) == Elems(out) + {k};
      out, left := out + [k], left - {k};
    }
    assert Elems(out) == keys;
    LeIsTotalPreorder();
    r := SortSlice(out, Le);
    SortedArrangement(out, r);
  }
}
