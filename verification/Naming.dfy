// Source names and tool IDs of cmd/acp-bridge: how a listed tool finds its way back.

module Naming {
  import opened Text

  predicate Allowed(c: char)
  {
    'a' <= c <= 'z' || 'A' <= c <= 'Z' || '0' <= c <= '9'
  }

  // Runs of other characters become one underscore; after says one was just written.
  function Squash(s: string, after: bool): string
  {
    if s == "" then ""
    else if Allowed(s[0]) then [s[0]] + Squash(s[1..], false)
    else if after then Squash(s[1..], true)
    else "_" + Squash(s[1..], true)
  }

  function Bare(s: string): string
  {
    if s != "" && s[0] == '_' then Bare(s[1..])
    else if s != "" && s[|s| - 1] == '_' then Bare(s[..|s| - 1])
    else s
  }

  function SafeName(name: string): string
  {
    Bare(Squash(Norm(name), false))
  }

  method SafeSourceName(name: string) returns (r: string)
    ensures r == SafeName(name)
  {
    var lowered := Norm(name);
    var b := "";
    var lastUnderscore := false;
    for i := 0 to |lowered|
      invariant b + Squash(lowered[i..], lastUnderscore) == Squash(lowered, false)
    {
      var c := lowered[i];
      assert lowered[i..][0] == c && lowered[i..][1..] == lowered[i + 1..];
      if Allowed(c) {
        assert b + ([c] + Squash(lowered[i + 1..], false)) == (b + [c]) + Squash(lowered[i + 1..], false);
        b := b + [c];
        lastUnderscore := false;
      } else {
        if !lastUnderscore {
          assert b + ("_" + Squash(lowered[i + 1..], true)) == (b + "_") + Squash(lowered[i + 1..], true);
          b := b + "_";
        }
        lastUnderscore := true;
      }
    }
    assert b == Squash(lowered, false);
    r := TrimUnderscores(b);
  }

  // strings.Trim(s, "_").
  method TrimUnderscores(s: string) returns (r: string)
    ensures r == Bare(s)
  {
    r := s;
    while r != "" && (r[0] == '_' || r[|r| - 1] == '_')
      invariant Bare(r) == Bare(s)
      decreases |r|
    {
      r := if r[0] == '_' then r[1..] else r[..|r| - 1];
    }
  }

  predicate SafeChar(c: char)
  {
    'a' <= c <= 'z' || '0' <= c <= '9' || c == '_'
  }

  // Lower-case letters, digits and single inner underscores.
  predicate Safe(s: string)
  {
    && (forall i :: 0 <= i < |s| ==> SafeChar(s[i]))
    && (forall i :: 0 <= i < |s| - 1 ==> s[i] != '_' || s[i + 1] != '_')
    && (s != "" ==> s[0] != '_' && s[|s| - 1] != '_')
  }

  predicate Squashed(s: string)
  {
    && (forall i :: 0 <= i < |s| ==> SafeChar(s[i]))
    && forall i :: 0 <= i < |s| - 1 ==> s[i] != '_' || s[i + 1] != '_'
  }

  lemma {:induction false} SquashFacts(s: string, after: bool)
    requires forall i :: 0 <= i < |s| ==> !('A' <= s[i] <= 'Z')
    ensures Squashed(Squash(s, after))
    ensures after && Squash(s, after) != "" ==> Squash(s, after)[0] != '_'
  {
    if s != "" {
      if Allowed(s[0]) {
        SquashFacts(s[1..], false);
        var rest := Squash(s[1..], false);
        var r := [s[0]] + rest;
        assert s[0] != '_';
        assert forall i :: 1 <= i < |r| ==> r[i] == rest[i - 1];
      } else {
        SquashFacts(s[1..], true);
        var rest := Squash(s[1..], true);
        var r := "_" + rest;
        assert forall i :: 1 <= i < |r| ==> r[i] == rest[i - 1];
      }
    }
  }

  lemma {:induction false} BareFacts(s: string)
    requires Squashed(s)
    ensures Safe(Bare(s))
  {
    if s != "" && s[0] == '_' {
      var t := s[1..];
      assert forall i :: 0 <= i < |t| ==> t[i] == s[i + 1];
      BareFacts(t);
    } else if s != "" && s[|s| - 1] == '_' {
      BareFacts(s[..|s| - 1]);
    }
  }

  lemma {:induction false} SquashKeepsSafe(s: string)
    requires Squashed(s)
    ensures Squash(s, false) == s
    ensures s == "" || s[0] != '_' ==> Squash(s, true) == s
  {
    if s != "" {
      var t := s[1..];
      assert forall i :: 0 <= i < |t| ==> t[i] == s[i + 1];
      SquashKeepsSafe(t);
      assert s == [s[0]] + t;
      if s[0] == '_' && t != "" {
        assert t[0] == s[1];
      }
    }
  }

  // A safe name has no dot and no leading, trailing or doubled underscore.
  lemma SafeNameIsSafe(name: string)
    ensures Safe(SafeName(name))
    ensures '.' !in SafeName(name)
  {
    SquashFacts(Norm(name), false);
    BareFacts(Squash(Norm(name), false));
  }

  lemma SafeIsNormal(s: string)
    requires Safe(s)
    ensures Trimmed(s) && Norm(s) == s
  {
    TrimmedIsFixed(s);
    assert forall i :: 0 <= i < |s| ==> LowerChar(s[i]) == s[i];
  }

  // The names safeSourceName leaves alone are exactly the safe ones.
  lemma SafeNameFixedIff(s: string)
    ensures SafeName(s) == s <==> Safe(s)
  {
    SafeNameIsSafe(s);
    if Safe(s) {
      SafeIsNormal(s);
      SquashKeepsSafe(s);
    }
  }

  lemma SafeNameIdempotent(name: string)
    ensures SafeName(SafeName(name)) == SafeName(name)
  {
    SafeNameIsSafe(name);
    SafeNameFixedIff(SafeName(name));
  }

  // ---- What a safe name is made of ----------------------------------------------------

  // The maximal runs of letters and digits; cur is the run read so far.
  function Words(cur: string, s: string): seq<string>
    decreases |s|
  {
    if s == "" then (if cur == "" then [] else [cur])
    else if Allowed(s[0]) then Words(cur + [s[0]], s[1..])
    else (if cur == "" then [] else [cur]) + Words("", s[1..])
  }

  // An underscore is left at the end when anything stands after the last word.
  function Trailing(cur: string, s: string): string
    decreases |s|
  {
    if s == "" then ""
    else if Allowed(s[0]) then Trailing(cur + [s[0]], s[1..])
    else if cur != "" && Words("", s[1..]) == [] then "_"
    else Trailing("", s[1..])
  }

  lemma {:induction false} NoWordsNoTrailing(s: string)
    requires Words("", s) == []
    ensures Trailing("", s) == "" && Squash(s, true) == ""
  {
    if s != "" {
      if Allowed(s[0]) {
        WordsStart("" + [s[0]], s[1..]);
      } else {
        assert [] + Words("", s[1..]) == Words("", s[1..]);
        NoWordsNoTrailing(s[1..]);
      }
    }
  }

  lemma {:induction false} WordsStart(cur: string, s: string)
    requires cur != ""
    ensures Words(cur, s) != [] && cur <= Words(cur, s)[0]
    decreases |s|
  {
    if s != "" && Allowed(s[0]) {
      WordsStart(cur + [s[0]], s[1..]);
    }
  }

  // Squashing writes the words with an underscore between two, and one after the last.
  lemma {:induction false} SquashIsJoined(cur: string, s: string)
    ensures cur != "" ==> cur + Squash(s, false) == Join(Words(cur, s), '_') + Trailing(cur, s)
    ensures cur == "" ==> Squash(s, true) == Join(Words("", s), '_') + Trailing("", s)
    decreases |s|
  {
    if s != "" {
      var rest := s[1..];
      if Allowed(s[0]) {
        SquashIsJoined(cur + [s[0]], rest);
        assert cur + ([s[0]] + Squash(rest, false)) == (cur + [s[0]]) + Squash(rest, false);
        assert "" + [s[0]] == [s[0]];
      } else {
        SquashIsJoined("", rest);
        if Words("", rest) == [] {
          NoWordsNoTrailing(rest);
          assert [cur] + [] == [cur];
        } else {
          JoinAfter(cur, rest);
        }
        assert [] + Words("", rest) == Words("", rest);
      }
    }
  }

  lemma JoinAfter(cur: string, rest: string)
    requires Words("", rest) != [] && Squash(rest, true) == Join(Words("", rest), '_') + Trailing("", rest)
    ensures cur + ("_" + Squash(rest, true)) == Join([cur] + Words("", rest), '_') + Trailing("", rest)
  {
    var ws := Words("", rest);
    assert ([cur] + ws)[1..] == ws;
    assert cur + ("_" + (Join(ws, '_') + Trailing("", rest))) == (cur + ['_'] + Join(ws, '_')) + Trailing("", rest);
  }

  lemma {:induction false} WordsArePlain(cur: string, s: string)
    requires forall c :: c in cur ==> Allowed(c)
    ensures forall w :: w in Words(cur, s) ==> w != "" && forall c :: c in w ==> Allowed(c)
    decreases |s|
  {
    if s != "" {
      WordsArePlain(if Allowed(s[0]) then cur + [s[0]] else "", s[1..]);
    }
  }

  lemma {:induction false} JoinedEnds(ws: seq<string>)
    requires ws != [] && forall w :: w in ws ==> w != "" && forall c :: c in w ==> Allowed(c)
    ensures var j := Join(ws, '_'); j != "" && j[0] != '_' && j[|j| - 1] != '_'
  {
    assert ws[0] in ws && ws[0][0] in ws[0] && ws[0][|ws[0]| - 1] in ws[0];
    if |ws| > 1 {
      assert forall w :: w in ws[1..] ==> w in ws;
      JoinedEnds(ws[1..]);
    }
  }

  lemma {:induction false} TrailingIsOne(cur: string, s: string)
    ensures Trailing(cur, s) == "" || Trailing(cur, s) == "_"
    decreases |s|
  {
    if s != "" {
      TrailingIsOne(if Allowed(s[0]) then cur + [s[0]] else "", s[1..]);
    }
  }

  lemma BareOfJoined(lead: string, j: string, trail: string)
    requires (lead == "" || lead == "_") && (trail == "" || trail == "_")
    requires j == "" || (j[0] != '_' && j[|j| - 1] != '_')
    ensures Bare(lead + j + trail) == j
  {
    BareKeeps(j);
    BareDropsTrail(j);
    BareDropsLead(j + trail);
    assert "" + j + trail == j + trail && "_" + j + trail == "_" + (j + trail);
    assert j + "" == j;
  }

  lemma BareDropsLead(s: string)
    ensures Bare("_" + s) == Bare(s)
  {
    assert ("_" + s)[1..] == s;
  }

  lemma BareDropsTrail(j: string)
    requires j == "" || j[0] != '_'
    ensures Bare(j + "_") == Bare(j)
  {
    var t := j + "_";
    assert t[..|t| - 1] == j && t[|t| - 1] == '_';
    if j == "" {
      assert t[1..] == "";
    } else {
      assert t[0] == j[0];
    }
  }

  lemma BareKeeps(j: string)
    requires j == "" || (j[0] != '_' && j[|j| - 1] != '_')
    ensures Bare(j) == j
  {
  }

  // A safe name is the words of the trimmed lower-case name, joined by underscores.
  lemma SafeNameIsJoined(name: string)
    ensures SafeName(name) == Join(Words("", Norm(name)), '_')
  {
    var s := Norm(name);
    var j, t := Join(Words("", s), '_'), Trailing("", s);
    SquashIsJoined("", s);
    WordsArePlain("", s);
    TrailingIsOne("", s);
    if Words("", s) != [] {
      JoinedEnds(Words("", s));
    }
    var lead := if s != "" && !Allowed(s[0]) then "_" else "";
    SquashStart(s);
    assert Squash(s, false) == lead + j + t;
    BareOfJoined(lead, j, t);
  }

  lemma SquashStart(s: string)
    ensures Squash(s, false) == (if s != "" && !Allowed(s[0]) then "_" else "") + Squash(s, true)
  {
  }

  // ---- Tool IDs ---------------------------------------------------------------------

  function ToolId(source: string, tool: string): string
  {
    source + "." + tool
  }

  // The position of the first dot, or the length when there is none.
  function DotIndex(s: string): (i: nat)
    ensures i <= |s|
  {
    if s == "" || s[0] == '.' then 0 else 1 + DotIndex(s[1..])
  }

  // Cut at the first dot; without one both parts are the whole ID.
  function Cut(id: string): (string, string)
  {
    var i := DotIndex(id);
    if i == |id| then (id, id) else (id[..i], id[i + 1..])
  }

  lemma {:induction false} DotIndexAt(s: string, i: nat)
    requires i <= |s| && '.' !in s[..i] && (i == |s| || s[i] == '.')
    ensures DotIndex(s) == i
  {
    if i > 0 {
      assert s[0] in s[..i];
      assert s[1..][..i - 1] == s[..i][1..];
      assert forall c :: c in s[..i][1..] ==> c in s[..i];
      DotIndexAt(s[1..], i - 1);
    }
  }

  // The scan of the bridge's startup.
  method SplitToolId(id: string) returns (source: string, toolName: string)
    ensures (source, toolName) == Cut(id)
  {
    source, toolName := id, id;
    for i := 0 to |id|
      invariant source == id && toolName == id && '.' !in id[..i]
    {
      if id[i] == '.' {
        source, toolName := id[..i], id[i + 1..];
        DotIndexAt(id, i);
        return;
      }
      assert id[..i + 1] == id[..i] + [id[i]];
    }
    assert id[..|id|] == id;
    DotIndexAt(id, |id|);
  }

  // Cutting an imported ID recovers the source and the tool's original name, dots included.
  lemma CutUndoesToolId(source: string, tool: string)
    requires '.' !in source
    ensures Cut(ToolId(source, tool)) == (source, tool)
  {
    var id := ToolId(source, tool);
    assert id[..|source|] == source && id[|source|] == '.' && id[|source| + 1..] == tool;
    DotIndexAt(id, |source|);
  }

  lemma CutWithoutDot(id: string)
    requires '.' !in id
    ensures Cut(id) == (id, id)
  {
    assert id[..|id|] == id;
    DotIndexAt(id, |id|);
  }

  // Distinct pairs get distinct IDs.
  lemma ToolIdInjective(s1: string, t1: string, s2: string, t2: string)
    requires '.' !in s1 && '.' !in s2
    requires ToolId(s1, t1) == ToolId(s2, t2)
    ensures s1 == s2 && t1 == t2
  {
    CutUndoesToolId(s1, t1);
    CutUndoesToolId(s2, t2);
  }
}
