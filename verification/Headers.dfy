// The headers of a forwarded request in internal/proxy, over Go's header maps: names are looked up
// in canonical form, and a map is visited in any order.

module Headers {
  import opened Order
  import opened Text

  type HeaderMap = map<string, seq<string>>

  // The characters of a token, section 3.2.6 of RFC 7230.
  predicate NameChar(c: char)
  {
    || 'a' <= c <= 'z' || 'A' <= c <= 'Z' || IsDigit(c)
    || '#' <= c <= '\'' || '^' <= c <= '`'
    || c == '!' || c == '*' || c == '+' || c == '-' || c == '.' || c == '|' || c == '~'
  }

  function UpperChar(c: char): char
  {
    if 'a' <= c <= 'z' then (c as int - 32) as char else c
  }

  // Capitals at the start and after each hyphen, small letters elsewhere.
  function Capitalised(s: string): string
  {
    seq(|s|, i requires 0 <= i < |s| => if i == 0 || s[i - 1] == '-' then UpperChar(s[i]) else LowerChar(s[i]))
  }

  // Go's textproto.CanonicalMIMEHeaderKey, which leaves anything but a token alone.
  function CanonicalKey(k: string): string
  {
    if forall i :: 0 <= i < |k| ==> NameChar(k[i]) then Capitalised(k) else k
  }

  lemma CanonicalKeyIdempotent(k: string)
    ensures CanonicalKey(CanonicalKey(k)) == CanonicalKey(k)
  {
    if forall i :: 0 <= i < |k| ==> NameChar(k[i]) {
      var c := Capitalised(k);
      forall i | 0 <= i < |k| ensures NameChar(c[i]) && (c[i] == '-' <==> k[i] == '-') {
        NameCharCases(k[i]);
      }
      forall i | 0 <= i < |k| ensures Capitalised(c)[i] == c[i] {
        NameCharCases(k[i]);
      }
      assert Capitalised(c) == c;
    }
  }

  lemma NameCharCases(c: char)
    requires NameChar(c)
    ensures NameChar(UpperChar(c)) && NameChar(LowerChar(c))
    ensures UpperChar(c) == '-' <==> c == '-'
    ensures LowerChar(c) == '-' <==> c == '-'
    ensures UpperChar(UpperChar(c)) == UpperChar(c) && LowerChar(LowerChar(c)) == LowerChar(c)
  {
  }

  predicate Token(k: string)
  {
    forall i :: 0 <= i < |k| ==> NameChar(k[i])
  }

  lemma LetterForms(a: char, b: char)
    ensures SameLetter(a, b) <==> LowerChar(a) == LowerChar(b)
    ensures SameLetter(a, b) <==> UpperChar(a) == UpperChar(b)
    ensures SameLetter(a, b) ==> (a == '-' <==> b == '-')
  {
  }

  // Two names have one canonical form exactly when they are the same ignoring case.
  lemma CanonicalIgnoresCase(a: string, b: string)
    requires Token(a) && Token(b)
    ensures CanonicalKey(a) == CanonicalKey(b) <==> Lower(a) == Lower(b)
  {
    LowerIgnoresCase(a, b);
    var x, y := Capitalised(a), Capitalised(b);
    if Lower(a) == Lower(b) {
      forall i | 0 <= i < |a| ensures x[i] == y[i] {
        LetterForms(a[i], b[i]);
        if i > 0 { LetterForms(a[i - 1], b[i - 1]); }
      }
      assert x == y;
    }
    if x == y {
      assert |x| == |a| && |y| == |b|;
      forall i | 0 <= i < |a| ensures SameLetter(a[i], b[i]) {
        SameCapital(a, b, i);
      }
    }
  }

  lemma SameCapital(a: string, b: string, i: nat)
    requires i < |a| == |b| && Capitalised(a) == Capitalised(b)
    ensures SameLetter(a[i], b[i])
    decreases i
  {
    assert Capitalised(a)[i] == Capitalised(b)[i];
    if i > 0 {
      SameCapital(a, b, i - 1);
      LetterForms(a[i - 1], b[i - 1]);
    }
    LetterForms(a[i], b[i]);
  }

  function Values(h: HeaderMap, k: string): seq<string>
  {
    if k in h then h[k] else []
  }

  function Del(h: HeaderMap, k: string): HeaderMap
  {
    h - {CanonicalKey(k)}
  }

  // Adds values one by one under a canonical name.
  function AddAll(h: HeaderMap, key: string, vs: seq<string>): HeaderMap
  {
    if vs == [] then h else
      var before := AddAll(h, key, vs[..|vs| - 1]);
      before[key := Values(before, key) + [vs[|vs| - 1]]]
  }

  lemma {:induction false} AddAllValues(h: HeaderMap, name: string, vs: seq<string>, key: string)
    ensures Values(AddAll(h, name, vs), key) == Values(h, key) + if key == name then vs else []
    ensures key in AddAll(h, name, vs) ==> key in h || key == name
  {
    if vs != [] {
      var init, last := vs[..|vs| - 1], vs[|vs| - 1];
      AddAllValues(h, name, init, key);
      Associate(Values(h, key), init, [last]);
      assert vs == init + [last];
    }
  }

  // The agent's credentials: these names, in this form, are dropped.
  const DROPPED := {"Authorization", "Proxy-Authorization"}

  lemma DroppedAreCanonical()
    ensures forall k :: k in DROPPED ==> CanonicalKey(k) == k
  {
    assert Capitalised("Authorization") == "Authorization";
    assert Capitalised("Proxy-Authorization") == "Proxy-Authorization";
  }

  function Kept(inbound: HeaderMap, key: string): seq<string>
  {
    if key in DROPPED then [] else Values(inbound, key)
  }

  datatype Credential = Credential(name: string, values: seq<string>)

  // The credentials in the order of a visit, under their canonical names.
  function Visited(creds: HeaderMap, order: seq<string>): seq<Credential>
    requires forall k :: k in order ==> k in creds
  {
    seq(|order|, i requires 0 <= i < |order| => Credential(CanonicalKey(order[i]), creds[order[i]]))
  }

  // What they add under a name.
  function Injected(cs: seq<Credential>, key: string): seq<string>
  {
    if cs == [] then [] else
      var last := cs[|cs| - 1];
      Injected(cs[..|cs| - 1], key) + if last.name == key then last.values else []
  }

  // out holds what was kept of inbound, followed by what cs adds.
  ghost predicate Rewritten(out: HeaderMap, inbound: HeaderMap, cs: seq<Credential>)
  {
    forall key :: Values(out, key) == Kept(inbound, key) + Injected(cs, key)
  }

  ghost predicate AllCanonical(h: HeaderMap)
  {
    forall k :: k in h ==> CanonicalKey(k) == k
  }

  method DropCredentials(inbound: HeaderMap) returns (out: HeaderMap)
    ensures Rewritten(out, inbound, [])
    ensures AllCanonical(inbound) ==> AllCanonical(out)
  {
    DroppedAreCanonical();
    out := Del(Del(inbound, "Authorization"), "Proxy-Authorization");
    assert forall key :: key in out <==> key in inbound && key !in DROPPED;
  }

  // The rewrite drops the agent's credentials, then adds the injected ones under their canonical
  // names, in whatever order the map is visited. Go's server delivers inbound names in canonical
  // form, and then no other spelling of a name is left.
  method RewriteHeaders(inbound: HeaderMap, creds: HeaderMap) returns (out: HeaderMap, ghost order: seq<string>)
    ensures Distinct(order) && Elems(order) == creds.Keys
    ensures (forall k :: k in order ==> k in creds) && Rewritten(out, inbound, Visited(creds, order))
    ensures AllCanonical(inbound) ==> AllCanonical(out)
  {
    out := DropCredentials(inbound);
    order := [];
    var left := creds.Keys;
    while left != {}
      invariant left <= creds.Keys
      invariant Distinct(order) && Elems(order) == creds.Keys - left
      invariant (forall k :: k in order ==> k in creds) && Rewritten(out, inbound, Visited(creds, order))
      invariant AllCanonical(inbound) ==> AllCanonical(out)
      decreases left
    {
      var k :| k in left;
      VisitNext(creds, order, k);
      InjectNext(out, inbound, Visited(creds, order), Credential(CanonicalKey(k), creds[k]));
      CanonicalKeyIdempotent(k);
      AddAllCanonical(out, CanonicalKey(k), creds[k]);
      out := AddAll(out, CanonicalKey(k), creds[k]);
      order, left := order + [k], left - {k};
    }
  }

  lemma VisitNext(creds: HeaderMap, order: seq<string>, k: string)
    requires k in creds && k !in Elems(order) && Distinct(order) && forall j :: j in order ==> j in creds
    ensures Distinct(order + [k]) && Elems(order + [k]) == Elems(order) + {k}
    ensures forall j :: j in order + [k] ==> j in creds
    ensures Visited(creds, order + [k]) == Visited(creds, order) + [Credential(CanonicalKey(k), creds[k])]
  {
  }

  lemma InjectNext(out: HeaderMap, inbound: HeaderMap, cs: seq<Credential>, c: Credential)
    requires Rewritten(out, inbound, cs)
    ensures Rewritten(AddAll(out, c.name, c.values), inbound, cs + [c])
  {
    forall key ensures Values(AddAll(out, c.name, c.values), key) == Kept(inbound, key) + Injected(cs + [c], key) {
      InjectedSnoc(cs, c, key);
      AddAllValues(out, c.name, c.values, key);
      Associate(Kept(inbound, key), Injected(cs, key), if c.name == key then c.values else []);
    }
  }

  lemma InjectedSnoc(cs: seq<Credential>, c: Credential, key: string)
    ensures Injected(cs + [c], key) == Injected(cs, key) + if c.name == key then c.values else []
  {
    assert (cs + [c])[..|cs|] == cs;
  }

  lemma Associate<T>(a: seq<T>, b: seq<T>, c: seq<T>)
    ensures a + b + c == a + (b + c)
  {
  }

  lemma AddAllCanonical(h: HeaderMap, name: string, vs: seq<string>)
    requires CanonicalKey(name) == name
    ensures AllCanonical(h) ==> AllCanonical(AddAll(h, name, vs))
  {
    forall key | key in AddAll(h, name, vs) ensures key in h || key == name {
      AddAllValues(h, name, vs, key);
    }
  }

  // Under a name stand the values of the credentials of that name, and no others.
  lemma {:induction false} InjectedMembers(cs: seq<Credential>, key: string, v: string)
    ensures v in Injected(cs, key) <==> exists c :: c in cs && c.name == key && v in c.values
  {
    if cs != [] {
      var init, last := cs[..|cs| - 1], cs[|cs| - 1];
      assert cs == init + [last];
      InjectedMembers(init, key, v);
    }
  }

  // Unless two credentials are spellings of one name, each stands there as it was given, whatever
  // the order of the visit.
  lemma {:induction false} InjectedExactly(cs: seq<Credential>, i: nat)
    requires i < |cs| && forall j, k :: 0 <= j < k < |cs| ==> cs[j].name != cs[k].name
    ensures Injected(cs, cs[i].name) == cs[i].values
  {
    var init := cs[..|cs| - 1];
    if i < |init| {
      InjectedExactly(init, i);
    } else {
      NoneInjected(init, cs[i].name);
    }
  }

  lemma {:induction false} NoneInjected(cs: seq<Credential>, key: string)
    requires forall j :: 0 <= j < |cs| ==> cs[j].name != key
    ensures Injected(cs, key) == []
  {
    if cs != [] {
      NoneInjected(cs[..|cs| - 1], key);
    }
  }

  // Nothing the agent sent under a dropped name, however spelled, is forwarded: what stands there
  // was injected.
  lemma AgentCredentialsGone(inbound: HeaderMap, out: HeaderMap, cs: seq<Credential>, k: string, v: string)
    requires Rewritten(out, inbound, cs) && AllCanonical(out)
    requires CanonicalKey(k) in {"Authorization", "Proxy-Authorization"} && v in Values(out, k)
    ensures exists c :: c in cs && c.name == k && v in c.values
  {
    assert CanonicalKey(k) == k;
    InjectedMembers(cs, k, v);
  }

  // Everything else the agent sent is forwarded, before what was injected under that name.
  lemma OthersAreKept(inbound: HeaderMap, out: HeaderMap, cs: seq<Credential>, key: string)
    requires Rewritten(out, inbound, cs) && key !in {"Authorization", "Proxy-Authorization"}
    ensures Values(inbound, key) <= Values(out, key)
    ensures (forall c :: c in cs ==> c.name != key) ==> Values(out, key) == Values(inbound, key)
  {
    if forall c :: c in cs ==> c.name != key {
      NoneInjected(cs, key);
    }
  }
}
