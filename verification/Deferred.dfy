// internal/resolver/deferred.go: capabilities scoped by a sliding window of observations.

module Deferred {
  import opened Order
  import opened Text
  import opened Manifest
  import opened Registry

  function LastOf<T>(s: seq<T>, n: nat): seq<T>
  {
    if |s| > n then s[|s| - n..] else s
  }

  // The observation recorded for a capability: its normal form, or nothing when blank.
  function Observation(cap: string): seq<string>
  {
    if Norm(cap) == "" then [] else [Norm(cap)]
  }

  function Observations(caps: seq<string>): seq<string>
  {
    if caps == [] then [] else Observations(caps[..|caps| - 1]) + Observation(caps[|caps| - 1])
  }

  ghost function ResolvedSet(all: seq<string>, window: seq<string>, threshold: nat, intent: string,
                             hints: seq<string>, fallback: Option<seq<string>>): set<string>
  {
    NormSet(hints) +
    (if |window| < threshold then Elems(all)
     else Elems(window) + if intent != "" && fallback.Some? then Elems(fallback.value) else {})
  }

  // None is ErrNoCapabilities.
  ghost function Resolved(caps: set<string>): Option<seq<string>>
  {
    if caps == {} then None else Some(SortedSet(caps))
  }

  class DeferredResolver {
    var allCapabilities: seq<string>
    var window: seq<string>
    var windowSize: nat
    var narrowThreshold: nat

    ghost predicate Valid()
      reads this
    {
      windowSize > 0 && narrowThreshold > 0 && |window| <= windowSize
    }

    constructor (all: seq<string>, size: int, threshold: int)
      ensures Valid() && window == []
      ensures windowSize == if size <= 0 then 10 else size
      ensures narrowThreshold == if threshold <= 0 then 3 else threshold
      ensures multiset(allCapabilities) == multiset(all) && SortedBy(allCapabilities, Le)
    {
      LeIsTotalPreorder();
      var sorted := SortSlice(all, Le);
      allCapabilities, window := sorted, [];
      windowSize := if size <= 0 then 10 else size;
      narrowThreshold := if threshold <= 0 then 3 else threshold;
    }

    method Observe(capability: string)
      requires Valid()
      modifies this`window
      ensures Valid()
      ensures window == LastOf(old(window) + Observation(capability), windowSize)
    {
      var cap := Norm(capability);
      if cap == "" {
        assert old(window) + [] == old(window);
        return;
      }
      window := window + [cap];
      if |window| > windowSize {
        window := window[|window| - windowSize..];
      }
    }

    method Reset()
      requires Valid()
      modifies this`window
      ensures Valid() && window == []
    {
      window := [];
    }

    // fallback is what the fallback resolver answers to the intent (None: its error).
    method Resolve(intent: string, hints: seq<string>, fallback: Option<seq<string>>)
      returns (r: Option<seq<string>>)
      requires Valid()
      ensures r == Resolved(ResolvedSet(allCapabilities, window, narrowThreshold, intent, hints, fallback))
    {
      var caps := NormalizeSet(hints);
      if |window| < narrowThreshold {
        caps := caps + Elems(allCapabilities);
      } else {
        caps := caps + Elems(window);
        if intent != "" && fallback.Some? {
          caps := caps + Elems(fallback.value);
        }
      }
      assert caps == ResolvedSet(allCapabilities, window, narrowThreshold, intent, hints, fallback);
      if caps == {} {
        return None;
      }
      var out := SortedKeys(caps);
      return Some(out);
    }
  }

  lemma LastOfLastOf<T>(s: seq<T>, t: seq<T>, n: nat)
    ensures LastOf(LastOf(s, n) + t, n) == LastOf(s + t, n)
  {
  }

  // What an answer holds: the hints, and below the threshold every known capability, from it on the
  // window and, if there is an intent the fallback can place, what it answers.
  lemma ResolvedIff(all: seq<string>, window: seq<string>, threshold: nat, intent: string,
                    hints: seq<string>, fallback: Option<seq<string>>, cap: string)
    ensures var r := Resolved(ResolvedSet(all, window, threshold, intent, hints, fallback));
            (r.Some? && cap in r.value) <==>
            || (exists h :: h in hints && Norm(h) == cap && cap != "")
            || (|window| < threshold && cap in all)
            || (|window| >= threshold && cap in window)
            || (|window| >= threshold && intent != "" && fallback.Some? && cap in fallback.value)
  {
    var caps := ResolvedSet(all, window, threshold, intent, hints, fallback);
    SortedSetIsSorted(caps);
    assert cap in SortedSet(caps) <==> cap in Elems(SortedSet(caps));
  }

  // A call's tags are observed in order, each in its normal form, blank ones left out.
  lemma {:induction false} ObservationsExact(caps: seq<string>, x: string)
    ensures x in Observations(caps) <==> x != "" && exists c :: c in caps && Norm(c) == x
    ensures (forall c :: c in caps ==> Norm(c) != "") ==>
              |Observations(caps)| == |caps| && forall i :: 0 <= i < |caps| ==> Observations(caps)[i] == Norm(caps[i])
  {
    if caps != [] {
      var init, last := caps[..|caps| - 1], caps[|caps| - 1];
      assert caps == init + [last];
      ObservationsExact(init, x);
    }
  }

  // Hints are always honoured, in any phase.
  lemma HintsAlwaysHonoured(all: seq<string>, window: seq<string>, threshold: nat, intent: string,
                            hints: seq<string>, fallback: Option<seq<string>>, h: string)
    requires h in hints && Norm(h) != ""
    ensures var r := Resolved(ResolvedSet(all, window, threshold, intent, hints, fallback));
            r.Some? && Ascending(r.value) && Norm(h) in r.value
  {
    var caps := ResolvedSet(all, window, threshold, intent, hints, fallback);
    assert Norm(h) in caps;
    SortedSetIsSorted(caps);
    assert Norm(h) in Elems(SortedSet(caps));
  }
}
