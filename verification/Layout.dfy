// Reading an encoded document back from its indentation.

module Layout {
  import opened Text
  import opened Anf
  import opened Encoder

  // A line over the lines indented below it.
  datatype LineTree = LineTree(text: string, kids: seq<LineTree>)

  function SplitLines(s: string): seq<string>
  {
    var parts := Split(s, '\n');
    parts[..|parts| - 1]
  }

  function Leading(s: string): (n: nat)
    ensures n <= |s|
  {
    if s != "" && s[0] == ' ' then 1 + Leading(s[1..]) else 0
  }

  function Level(s: string): nat
  {
    Leading(s) / 2
  }

  function Body(s: string): string
  {
    s[Leading(s)..]
  }

  // The trees whose first lines stand at the given level, and the lines left over.
  function ReadForest(lines: seq<string>, level: nat): (r: (seq<LineTree>, seq<string>))
    ensures |r.1| <= |lines|
    decreases |lines|
  {
    if lines == [] || Level(lines[0]) != level then ([], lines)
    else
      var below := ReadForest(lines[1..], level + 1);
      var beside := ReadForest(below.1, level);
      ([LineTree(Body(lines[0]), below.0)] + beside.0, beside.1)
  }

  // ---- What should be read ----------------------------------------------------------

  function PropTrees(props: seq<Property>): seq<LineTree>
  {
    seq(|props|, i requires 0 <= i < |props| => LineTree(PropText(props[i]), []))
  }

  function TreeOf(e: Entity): LineTree
    decreases e, 0
  {
    LineTree(HeadText(e), PropTrees(e.props) + TreesOf(e.children))
  }

  function TreesOf(es: seq<Entity>): seq<LineTree>
    decreases es, 1
  {
    if es == [] then [] else [TreeOf(es[0])] + TreesOf(es[1..])
  }

  predicate OneLine(s: string)
  {
    '\n' !in s
  }

  // Something a line can start with.
  predicate Starts(s: string)
  {
    s != "" && s[0] != ' '
  }

  predicate CleanProps(props: seq<Property>)
  {
    forall p :: p in props ==> OneLine(p.key) && OneLine(p.value)
  }

  // No field holds a newline, and types and keys are nonempty and do not start with a space.
  predicate CleanEntity(e: Entity)
    decreases e, 0
  {
    && OneLine(e.typ) && OneLine(e.name) && OneLine(e.status) && Starts(e.typ)
    && CleanProps(e.inlineProps) && CleanProps(e.props)
    && (forall p :: p in e.props ==> Starts(p.key))
    && CleanForest(e.children)
  }

  predicate CleanForest(es: seq<Entity>)
    decreases es, 1
  {
    es == [] || (CleanEntity(es[0]) && CleanForest(es[1..]))
  }

  // ---- Lines ------------------------------------------------------------------------

  lemma {:induction false} SplitUnlines(lines: seq<string>)
    requires forall l :: l in lines ==> OneLine(l)
    ensures Split(Unlines(lines), '\n') == lines + [""]
  {
    if lines == [] {
    } else {
      var first, rest := lines[0], lines[1..];
      assert lines == [first] + rest;
      assert OneLine(first);
      UnlinesConcat([first], rest);
      UnlinesOne(first);
      SplitUnlines(rest);
      SplitAfter(first, '\n', Unlines(rest));
      assert first + ['\n'] + Unlines(rest) == Unlines(lines);
      assert [first] + (rest + [""]) == lines + [""];
    }
  }

  lemma {:induction false} LeadingOfIndent(depth: nat, t: string)
    requires Starts(t)
    ensures Leading(Indent(depth) + t) == 2 * depth && |Indent(depth)| == 2 * depth
    ensures forall c :: c in Indent(depth) ==> c == ' '
  {
    if depth > 0 {
      LeadingOfIndent(depth - 1, t);
      IndentFront(depth);
      var s := Indent(depth - 1) + t;
      assert Indent(depth) + t == "  " + s;
      assert ("  " + s)[1..] == " " + s;
      assert (" " + s)[1..] == s;
    }
  }

  lemma {:induction false} IndentFront(depth: nat)
    requires depth > 0
    ensures Indent(depth) == "  " + Indent(depth - 1)
  {
    if depth > 1 {
      IndentFront(depth - 1);
    }
  }

  lemma IndentedLine(depth: nat, t: string)
    requires Starts(t)
    ensures Level(Indent(depth) + t) == depth && Body(Indent(depth) + t) == t
  {
    LeadingOfIndent(depth, t);
  }

  lemma {:induction false} ForestFront(es: seq<Entity>, depth: nat)
    requires es != []
    ensures ForestLines(es, depth) == EntityLines(es[0], depth) + ForestLines(es[1..], depth)
  {
    if |es| == 1 {
      assert es[..0] == [] && es[1..] == [];
    } else {
      var init, rest := es[..|es| - 1], es[1..];
      Order.MiddleOf(es);
      ForestFront(init, depth);
      var first, last := EntityLines(es[0], depth), EntityLines(es[|es| - 1], depth);
      var mid := ForestLines(init[1..], depth);
      assert ForestLines(rest, depth) == mid + last;
      assert first + (mid + last) == (first + mid) + last;
    }
  }

  lemma {:induction false} PropFront(props: seq<Property>, depth: nat)
    requires props != []
    ensures PropLines(props, depth) == [Indent(depth) + PropText(props[0])] + PropLines(props[1..], depth)
  {
    if |props| == 1 {
      assert props[..0] == [] && props[1..] == [];
    } else {
      var init, rest := props[..|props| - 1], props[1..];
      Order.MiddleOf(props);
      PropFront(init, depth);
      var first, last := [Indent(depth) + PropText(props[0])], [Indent(depth) + PropText(props[|props| - 1])];
      assert PropLines(rest, depth) == PropLines(init[1..], depth) + last;
      assert first + (PropLines(init[1..], depth) + last) == (first + PropLines(init[1..], depth)) + last;
    }
  }

  // ---- Reading ----------------------------------------------------------------------

  // Nothing in tail belongs below a line of this level.
  predicate Closes(tail: seq<string>, level: nat)
  {
    tail == [] || Level(tail[0]) <= level
  }

  // The lines are read as the trees in front of whatever the rest holds.
  ghost predicate ReadsAs(lines: seq<string>, trees: seq<LineTree>, rest: seq<string>, level: nat)
  {
    ReadForest(lines + rest, level) == (trees + ReadForest(rest, level).0, ReadForest(rest, level).1)
  }

  lemma ReadsNothing(rest: seq<string>, level: nat)
    ensures ReadsAs([], [], rest, level)
  {
    assert [] + rest == rest;
    assert [] + ReadForest(rest, level).0 == ReadForest(rest, level).0;
  }

  lemma ReadsInTurn(a: seq<string>, ta: seq<LineTree>, b: seq<string>, tb: seq<LineTree>, rest: seq<string>, level: nat)
    requires ReadsAs(a, ta, b + rest, level) && ReadsAs(b, tb, rest, level)
    ensures ReadsAs(a + b, ta + tb, rest, level)
  {
    assert (a + b) + rest == a + (b + rest);
    assert ta + (tb + ReadForest(rest, level).0) == (ta + tb) + ReadForest(rest, level).0;
  }

  lemma StopsHere(rest: seq<string>, level: nat)
    requires Closes(rest, level)
    ensures ReadForest(rest, level + 1) == ([], rest)
  {
  }

  // A line over lines read one level deeper.
  lemma ReadNode(line: string, below: seq<string>, kids: seq<LineTree>, rest: seq<string>, level: nat)
    requires Level(line) == level && Closes(rest, level)
    requires ReadsAs(below, kids, rest, level + 1)
    ensures ReadsAs([line] + below, [LineTree(Body(line), kids)], rest, level)
  {
    StopsHere(rest, level);
    var all := [line] + below + rest;
    assert all[0] == line && all[1..] == below + rest;
    assert kids + [] == kids;
    assert ReadForest(all[1..], level + 1) == (kids, rest);
  }

  lemma {:induction false} ReadProps(props: seq<Property>, level: nat, tail: seq<string>)
    requires forall p :: p in props ==> Starts(p.key)
    requires Closes(tail, level)
    ensures ReadsAs(PropLines(props, level), PropTrees(props), tail, level)
    ensures Closes(PropLines(props, level) + tail, level)
  {
    if props == [] {
      ReadsNothing(tail, level);
      assert [] + tail == tail && PropTrees(props) == [];
    } else {
      var line := Indent(level) + PropText(props[0]);
      var more := PropLines(props[1..], level);
      assert Starts(props[0].key);
      IndentedLine(level, PropText(props[0]));
      ReadProps(props[1..], level, tail);
      ReadsNothing(more + tail, level + 1);
      ReadNode(line, [], [], more + tail, level);
      assert [line] + [] == [line];
      ReadsInTurn([line], [LineTree(PropText(props[0]), [])], more, PropTrees(props[1..]), tail, level);
      PropJoin(props, level, tail);
    }
  }

  lemma PropJoin(props: seq<Property>, level: nat, tail: seq<string>)
    requires props != [] && Starts(props[0].key)
    ensures var line := Indent(level) + PropText(props[0]);
            && PropLines(props, level) == [line] + PropLines(props[1..], level)
            && PropTrees(props) == [LineTree(PropText(props[0]), [])] + PropTrees(props[1..])
            && Closes(PropLines(props, level) + tail, level)
  {
    PropFront(props, level);
    IndentedLine(level, PropText(props[0]));
  }

  lemma ReadEntity(e: Entity, level: nat, rest: seq<string>)
    requires Starts(e.typ) && (forall p :: p in e.props ==> Starts(p.key)) && Closes(rest, level)
    requires ReadsAs(ForestLines(e.children, level + 1), TreesOf(e.children), rest, level + 1)
    requires Closes(ForestLines(e.children, level + 1) + rest, level + 1)
    ensures ReadsAs(EntityLines(e, level), [TreeOf(e)], rest, level)
  {
    HeadStarts(e);
    IndentedLine(level, HeadText(e));
    var line := Indent(level) + HeadText(e);
    var props, kids := PropLines(e.props, level + 1), ForestLines(e.children, level + 1);
    ReadProps(e.props, level + 1, kids + rest);
    ReadsInTurn(props, PropTrees(e.props), kids, TreesOf(e.children), rest, level + 1);
    ReadNode(line, props + kids, PropTrees(e.props) + TreesOf(e.children), rest, level);
    assert [line] + (props + kids) == EntityLines(e, level);
  }

  lemma EntityOpens(e: Entity, level: nat, rest: seq<string>)
    requires Starts(e.typ)
    ensures Closes(EntityLines(e, level) + rest, level)
  {
    HeadStarts(e);
    IndentedLine(level, HeadText(e));
  }

  lemma {:induction false} ReadTrees(es: seq<Entity>, level: nat, tail: seq<string>)
    requires CleanForest(es) && Closes(tail, level)
    ensures ReadsAs(ForestLines(es, level), TreesOf(es), tail, level)
    ensures Closes(ForestLines(es, level) + tail, level)
    decreases es
  {
    if es == [] {
      ReadsNothing(tail, level);
      assert [] + tail == tail;
    } else {
      var e, more := es[0], ForestLines(es[1..], level);
      ReadTrees(es[1..], level, tail);
      HigherCloses(more + tail, level);
      ReadTrees(e.children, level + 1, more + tail);
      ReadEntity(e, level, more + tail);
      EntityOpens(e, level, more + tail);
      ForestFront(es, level);
      ReadsInTurn(EntityLines(e, level), [TreeOf(e)], more, TreesOf(es[1..]), tail, level);
      Associate(EntityLines(e, level), more, tail);
    }
  }

  lemma Associate(a: seq<string>, b: seq<string>, c: seq<string>)
    ensures (a + b) + c == a + (b + c)
  {
  }

  lemma HigherCloses(tail: seq<string>, level: nat)
    requires Closes(tail, level)
    ensures Closes(tail, level + 1)
  {
  }

  lemma HeadStarts(e: Entity)
    requires Starts(e.typ)
    ensures Starts(HeadText(e))
  {
  }

  // ---- The round trip ---------------------------------------------------------------

  lemma {:induction false} InlineOneLine(props: seq<Property>)
    requires CleanProps(props)
    ensures OneLine(InlineText(props))
  {
    if props != [] {
      assert forall p :: p in props[..|props| - 1] ==> p in props;
      InlineOneLine(props[..|props| - 1]);
      assert props[|props| - 1] in props;
    }
  }

  lemma IndentOneLine(depth: nat)
    ensures OneLine(Indent(depth))
  {
    LeadingOfIndent(depth, "x");
  }

  lemma {:induction false} PropLinesOneLine(props: seq<Property>, depth: nat)
    requires CleanProps(props)
    ensures forall l :: l in PropLines(props, depth) ==> OneLine(l)
  {
    if props != [] {
      assert forall p :: p in props[..|props| - 1] ==> p in props;
      PropLinesOneLine(props[..|props| - 1], depth);
      IndentOneLine(depth);
      assert props[|props| - 1] in props;
    }
  }

  lemma {:induction false} ForestOneLine(es: seq<Entity>, depth: nat)
    requires CleanForest(es)
    ensures forall l :: l in ForestLines(es, depth) ==> OneLine(l)
    decreases es
  {
    if es != [] {
      var e := es[0];
      ForestFront(es, depth);
      ForestOneLine(es[1..], depth);
      ForestOneLine(e.children, depth + 1);
      PropLinesOneLine(e.props, depth + 1);
      InlineOneLine(e.inlineProps);
      IndentOneLine(depth);
      assert OneLine(Indent(depth) + HeadText(e));
    }
  }

  // Reading the printed lines of a clean forest by indentation rebuilds exactly its tree of
  // lines: each entity line over its property lines and then its children, in order.
  lemma LayoutRoundTrip(es: seq<Entity>)
    requires CleanForest(es)
    ensures ReadForest(SplitLines(Unlines(ForestLines(es, 0))), 0) == (TreesOf(es), [])
  {
    var lines := ForestLines(es, 0);
    ForestOneLine(es, 0);
    SplitUnlines(lines);
    assert SplitLines(Unlines(lines)) == lines;
    ReadTrees(es, 0, []);
    assert lines + [] == lines && TreesOf(es) + [] == TreesOf(es);
  }

  // ---- Whole documents --------------------------------------------------------------

  predicate HasMark(l: string, mark: char)
  {
    l != "" && l[0] == mark
  }

  predicate Unmarked(l: string)
  {
    l != "" && l[0] != '@' && l[0] != '!' && l[0] != '?'
  }

  function Marked(lines: seq<string>, mark: char): seq<string>
  {
    if lines == [] then [] else
      (if HasMark(lines[0], mark) then [lines[0]] else []) + Marked(lines[1..], mark)
  }

  function EntityPart(lines: seq<string>): seq<string>
  {
    if lines == [] then [] else
      (if Unmarked(lines[0]) then [lines[0]] else []) + EntityPart(lines[1..])
  }

  // What the two filters keep of lines that all carry one mark, or none.
  lemma {:induction false} FilterUniform(lines: seq<string>, own: char, mark: char)
    requires own == '@' || own == '!' || own == '?'
    requires forall l :: l in lines ==> HasMark(l, own)
    ensures Marked(lines, mark) == if mark == own then lines else []
    ensures EntityPart(lines) == []
  {
    if lines != [] {
      FilterUniform(lines[1..], own, mark);
      assert HasMark(lines[0], own);
      assert lines == [lines[0]] + lines[1..];
    }
  }

  lemma {:induction false} FilterEntities(lines: seq<string>, mark: char)
    requires mark == '@' || mark == '!' || mark == '?'
    requires forall l :: l in lines ==> Unmarked(l)
    ensures Marked(lines, mark) == []
    ensures EntityPart(lines) == lines
  {
    if lines != [] {
      FilterEntities(lines[1..], mark);
      assert Unmarked(lines[0]);
      assert lines == [lines[0]] + lines[1..];
    }
  }

  lemma FilterBlank(present: bool, mark: char)
    ensures Marked(Blank(present), mark) == [] && EntityPart(Blank(present)) == []
  {
  }

  lemma {:induction false} MarkedConcat(a: seq<string>, b: seq<string>, mark: char)
    ensures Marked(a + b, mark) == Marked(a, mark) + Marked(b, mark)
  {
    if a == [] {
      assert a + b == b;
    } else {
      MarkedConcat(a[1..], b, mark);
      assert (a + b)[0] == a[0] && (a + b)[1..] == a[1..] + b;
      var first := if HasMark(a[0], mark) then [a[0]] else [];
      assert first + (Marked(a[1..], mark) + Marked(b, mark)) == (first + Marked(a[1..], mark)) + Marked(b, mark);
    }
  }

  lemma {:induction false} EntityPartConcat(a: seq<string>, b: seq<string>)
    ensures EntityPart(a + b) == EntityPart(a) + EntityPart(b)
  {
    if a == [] {
      assert a + b == b;
    } else {
      EntityPartConcat(a[1..], b);
      assert (a + b)[0] == a[0] && (a + b)[1..] == a[1..] + b;
      var first := if Unmarked(a[0]) then [a[0]] else [];
      assert first + (EntityPart(a[1..]) + EntityPart(b)) == (first + EntityPart(a[1..])) + EntityPart(b);
    }
  }

  predicate CleanPairs(m: map<string, string>)
  {
    forall k :: k in m ==> OneLine(k) && OneLine(m[k])
  }

  // No field holds a newline, and the top entities' types cannot be taken for section marks.
  predicate CleanDocument(d: Document)
  {
    && (forall h :: h in d.headers ==> OneLine(h.key) && OneLine(h.value))
    && CleanForest(d.entities)
    && (forall e :: e in d.entities ==> Unmarked(e.typ))
    && (forall a :: a in d.alerts ==>
          OneLine(a.severity) && OneLine(a.typ) && OneLine(a.name) && OneLine(a.message) && CleanPairs(a.props))
    && (forall a :: a in d.actions ==> OneLine(a.verb) && OneLine(a.typ) && OneLine(a.name) && CleanPairs(a.params))
  }

  lemma {:induction false} PairsOneLine(m: map<string, string>, keys: seq<string>)
    requires CleanPairs(m) && forall k :: k in keys ==> k in m
    ensures OneLine(PairsText(m, keys))
  {
    if keys != [] {
      assert forall k :: k in keys[..|keys| - 1] ==> k in keys;
      PairsOneLine(m, keys[..|keys| - 1]);
      assert keys[|keys| - 1] in keys;
    }
  }

  lemma SortedPairsOneLine(m: map<string, string>)
    requires CleanPairs(m)
    ensures OneLine(PairsText(m, Order.SortedSet(m.Keys)))
  {
    Order.SortedSetIsSorted(m.Keys);
    var keys := Order.SortedSet(m.Keys);
    assert forall k :: k in keys ==> k in Order.Elems(keys);
    PairsOneLine(m, keys);
  }

  lemma MarkedSections(d: Document)
    requires CleanDocument(d)
    ensures forall l :: l in HeaderLines(d.headers) ==> OneLine(l) && HasMark(l, '@')
    ensures forall l :: l in AlertLines(d.alerts) ==> OneLine(l) && HasMark(l, '!')
    ensures forall l :: l in ActionLines(d.actions) ==> OneLine(l) && HasMark(l, '?')
  {
    forall i | 0 <= i < |d.headers|
      ensures OneLine(HeaderLine(d.headers[i])) && HasMark(HeaderLine(d.headers[i]), '@') {
      assert d.headers[i] in d.headers;
    }
    forall i | 0 <= i < |d.alerts| ensures OneLine(AlertLine(d.alerts[i])) && HasMark(AlertLine(d.alerts[i]), '!') {
      assert d.alerts[i] in d.alerts;
      SortedPairsOneLine(d.alerts[i].props);
    }
    forall i | 0 <= i < |d.actions|
      ensures OneLine(ActionLine(d.actions[i])) && HasMark(ActionLine(d.actions[i]), '?') {
      assert d.actions[i] in d.actions;
      SortedPairsOneLine(d.actions[i].params);
    }
  }

  lemma IndentedIsUnmarked(depth: nat, t: string)
    requires depth > 0
    ensures Unmarked(Indent(depth) + t)
  {
    IndentFront(depth);
  }

  lemma {:induction false} PropLinesUnmarked(props: seq<Property>, depth: nat)
    requires depth > 0
    ensures forall l :: l in PropLines(props, depth) ==> Unmarked(l)
  {
    if props != [] {
      PropLinesUnmarked(props[..|props| - 1], depth);
      IndentedIsUnmarked(depth, PropText(props[|props| - 1]));
    }
  }

  lemma {:induction false} ForestUnmarked(es: seq<Entity>, depth: nat)
    requires depth == 0 ==> forall e :: e in es ==> Unmarked(e.typ)
    ensures forall l :: l in ForestLines(es, depth) ==> Unmarked(l)
    decreases es
  {
    if es != [] {
      var e := es[0];
      assert e in es;
      ForestFront(es, depth);
      assert forall x :: x in es[1..] ==> x in es;
      ForestUnmarked(es[1..], depth);
      ForestUnmarked(e.children, depth + 1);
      PropLinesUnmarked(e.props, depth + 1);
      if depth > 0 {
        IndentedIsUnmarked(depth, HeadText(e));
      } else {
        assert Indent(depth) + HeadText(e) == HeadText(e);
        assert HeadText(e)[0] == e.typ[0];
      }
    }
  }

  lemma MarkedParts(a: seq<string>, b: seq<string>, c: seq<string>, d: seq<string>, e: seq<string>, f: seq<string>,
                    g: seq<string>, mark: char)
    ensures Marked(a + b + c + d + e + f + g, mark) ==
            Marked(a, mark) + Marked(b, mark) + Marked(c, mark) + Marked(d, mark) + Marked(e, mark) +
            Marked(f, mark) + Marked(g, mark)
  {
    MarkedConcat(a, b, mark);
    MarkedConcat(a + b, c, mark);
    MarkedConcat(a + b + c, d, mark);
    MarkedConcat(a + b + c + d, e, mark);
    MarkedConcat(a + b + c + d + e, f, mark);
    MarkedConcat(a + b + c + d + e + f, g, mark);
  }

  lemma EntityParts(a: seq<string>, b: seq<string>, c: seq<string>, d: seq<string>,
                    e: seq<string>, f: seq<string>, g: seq<string>)
    ensures EntityPart(a + b + c + d + e + f + g) ==
            EntityPart(a) + EntityPart(b) + EntityPart(c) + EntityPart(d) + EntityPart(e) +
            EntityPart(f) + EntityPart(g)
  {
    EntityPartConcat(a, b);
    EntityPartConcat(a + b, c);
    EntityPartConcat(a + b + c, d);
    EntityPartConcat(a + b + c + d, e);
    EntityPartConcat(a + b + c + d + e, f);
    EntityPartConcat(a + b + c + d + e + f, g);
  }

  lemma EntitiesAlone(a: seq<string>, b: seq<string>, c: seq<string>, d: seq<string>,
                      e: seq<string>, f: seq<string>, g: seq<string>)
    requires EntityPart(a) == EntityPart(b) == EntityPart(d) == EntityPart(e) == EntityPart(f) == EntityPart(g) == []
    ensures EntityPart(a + b + c + d + e + f + g) == EntityPart(c)
  {
    EntityParts(a, b, c, d, e, f, g);
  }

  lemma MarkedSection(d: Document, mark: char)
    requires CleanDocument(d) && (mark == '@' || mark == '!' || mark == '?')
    ensures Marked(DocumentLines(d), mark) ==
            if mark == '@' then HeaderLines(d.headers)
            else if mark == '!' then AlertLines(d.alerts)
            else ActionLines(d.actions)
  {
    var h, f, x, o := HeaderLines(d.headers), ForestLines(d.entities, 0), AlertLines(d.alerts), ActionLines(d.actions);
    SectionMarks(d, mark);
    FilterBlank(d.headers != [], mark);
    FilterBlank(d.alerts != [], mark);
    FilterBlank(d.actions != [], mark);
    MarkedParts(h, Blank(d.headers != []), f, Blank(d.alerts != []), x, Blank(d.actions != []), o, mark);
    OnlyPart(h);
    OnlyPart(x);
    OnlyPart(o);
  }

  lemma OnlyPart(p: seq<string>)
    ensures p + [] + [] + [] + [] + [] + [] == p
    ensures [] + [] + [] + [] + p + [] + [] == p
    ensures [] + [] + [] + [] + [] + [] + p == p
  {
  }

  lemma SectionMarks(d: Document, mark: char)
    requires CleanDocument(d) && (mark == '@' || mark == '!' || mark == '?')
    ensures Marked(HeaderLines(d.headers), mark) == if mark == '@' then HeaderLines(d.headers) else []
    ensures Marked(AlertLines(d.alerts), mark) == if mark == '!' then AlertLines(d.alerts) else []
    ensures Marked(ActionLines(d.actions), mark) == if mark == '?' then ActionLines(d.actions) else []
    ensures Marked(ForestLines(d.entities, 0), mark) == []
  {
    MarkedSections(d);
    ForestUnmarked(d.entities, 0);
    FilterUniform(HeaderLines(d.headers), '@', mark);
    FilterUniform(AlertLines(d.alerts), '!', mark);
    FilterUniform(ActionLines(d.actions), '?', mark);
    FilterEntities(ForestLines(d.entities, 0), mark);
  }

  lemma OtherSectionsFilterOut(d: Document)
    requires CleanDocument(d)
    ensures EntityPart(HeaderLines(d.headers)) == [] && EntityPart(AlertLines(d.alerts)) == []
    ensures EntityPart(ActionLines(d.actions)) == []
  {
    MarkedSections(d);
    FilterUniform(HeaderLines(d.headers), '@', '@');
    FilterUniform(AlertLines(d.alerts), '!', '!');
    FilterUniform(ActionLines(d.actions), '?', '?');
  }

  lemma EntitySection(d: Document)
    requires CleanDocument(d)
    ensures EntityPart(DocumentLines(d)) == ForestLines(d.entities, 0)
  {
    var f := ForestLines(d.entities, 0);
    ForestUnmarked(d.entities, 0);
    FilterEntities(f, '@');
    OtherSectionsFilterOut(d);
    FilterBlank(d.headers != [], '@');
    FilterBlank(d.alerts != [], '@');
    FilterBlank(d.actions != [], '@');
    EntitiesAlone(HeaderLines(d.headers), Blank(d.headers != []), f, Blank(d.alerts != []),
                  AlertLines(d.alerts), Blank(d.actions != []), ActionLines(d.actions));
  }

  lemma DocumentOneLine(d: Document)
    requires CleanDocument(d)
    ensures forall l :: l in DocumentLines(d) ==> OneLine(l)
  {
    MarkedSections(d);
    ForestOneLine(d.entities, 0);
  }

  // From the text of a clean document alone, the marks give back its header, alert and action
  // lines in order, and the indentation of the rest gives back its entities.
  lemma DocumentRoundTrip(d: Document)
    requires CleanDocument(d)
    ensures var lines := SplitLines(Unlines(DocumentLines(d)));
            && Marked(lines, '@') == HeaderLines(d.headers)
            && Marked(lines, '!') == AlertLines(d.alerts)
            && Marked(lines, '?') == ActionLines(d.actions)
            && ReadForest(EntityPart(lines), 0) == (TreesOf(d.entities), [])
  {
    var lines := DocumentLines(d);
    DocumentOneLine(d);
    SplitUnlines(lines);
    assert SplitLines(Unlines(lines)) == lines;
    MarkedSection(d, '@');
    MarkedSection(d, '!');
    MarkedSection(d, '?');
    EntitySection(d);
    ReadTrees(d.entities, 0, []);
    var f := ForestLines(d.entities, 0);
    assert f + [] == f && TreesOf(d.entities) + [] == TreesOf(d.entities);
  }

  // ---- The order of the sections ------------------------------------------------------

  // Which section a line that is not blank belongs to.
  function Rank(l: string): nat
  {
    if HasMark(l, '@') then 0 else if HasMark(l, '!') then 2 else if HasMark(l, '?') then 3 else 1
  }

  ghost predicate InOrder(ls: seq<string>, top: nat)
  {
    && (forall i :: 0 <= i < |ls| && ls[i] != "" ==> Rank(ls[i]) <= top)
    && forall i, j :: 0 <= i < j < |ls| && ls[i] != "" && ls[j] != "" ==> Rank(ls[i]) <= Rank(ls[j])
  }

  lemma InOrderAppend(ls: seq<string>, s: seq<string>, below: nat, top: nat)
    requires InOrder(ls, below) && below <= top
    requires forall l :: l in s ==> l == "" || Rank(l) == top
    ensures InOrder(ls + s, top)
  {
    var r := ls + s;
    forall i | |ls| <= i < |r| ensures r[i] == "" || Rank(r[i]) == top {
      assert r[i] in s;
    }
  }

  function Blanks(ls: seq<string>): nat
  {
    if ls == [] then 0 else Blanks(ls[..|ls| - 1]) + if ls[|ls| - 1] == "" then 1 else 0
  }

  lemma {:induction false} BlanksConcat(a: seq<string>, b: seq<string>)
    ensures Blanks(a + b) == Blanks(a) + Blanks(b)
  {
    if b == [] {
      assert a + b == a;
    } else {
      Order.InitOfConcat(a, b);
      BlanksConcat(a, b[..|b| - 1]);
    }
  }

  lemma {:induction false} NoBlanks(ls: seq<string>)
    requires forall l :: l in ls ==> l != ""
    ensures Blanks(ls) == 0
  {
    if ls != [] {
      var init := ls[..|ls| - 1];
      assert ls[|ls| - 1] in ls;
      forall l | l in init ensures l != "" {
        assert l in ls;
      }
      NoBlanks(init);
    }
  }

  lemma BlanksOfBlank(present: bool)
    ensures Blanks(Blank(present)) == if present then 1 else 0
  {
    assert [""][..0] == [];
  }

  // Every section's lines: its mark, and never blank.
  lemma SectionRanks(d: Document)
    requires CleanDocument(d)
    ensures forall l :: l in HeaderLines(d.headers) ==> l != "" && Rank(l) == 0
    ensures forall l :: l in ForestLines(d.entities, 0) ==> l != "" && Rank(l) == 1
    ensures forall l :: l in AlertLines(d.alerts) ==> l != "" && Rank(l) == 2
    ensures forall l :: l in ActionLines(d.actions) ==> l != "" && Rank(l) == 3
  {
    MarkedSections(d);
    ForestUnmarked(d.entities, 0);
  }

  // The text has headers, entities, alerts and actions in this order, and a blank line after the
  // headers, before the alerts and before the actions, where there are any, and nowhere else.
  lemma SectionsInOrder(d: Document)
    requires CleanDocument(d)
    ensures var lines := SplitLines(Unlines(DocumentLines(d)));
            && InOrder(lines, 3)
            && Blanks(lines) == (if d.headers != [] then 1 else 0) + (if d.alerts != [] then 1 else 0) +
                                (if d.actions != [] then 1 else 0)
            && (d.headers != [] ==> |d.headers| < |lines| && lines[|d.headers|] == "")
            && SetOff(lines, '!') && SetOff(lines, '?')
  {
    var lines := DocumentLines(d);
    DocumentOneLine(d);
    SplitUnlines(lines);
    LinesInOrder(d);
    LinesBlank(d);
    LinesSetOff(d);
    if d.headers != [] {
      HeadersSetOff(d);
    }
  }

  lemma LinesInOrder(d: Document)
    requires CleanDocument(d)
    ensures InOrder(DocumentLines(d), 3)
  {
    var h, f, x, o := HeaderLines(d.headers), ForestLines(d.entities, 0), AlertLines(d.alerts), ActionLines(d.actions);
    SectionRanks(d);
    assert [] + h == h;
    InOrderAppend([], h, 0, 0);
    InOrderAppend(h, Blank(d.headers != []), 0, 0);
    var a := h + Blank(d.headers != []);
    InOrderAppend(a, f, 0, 1);
    InOrderAppend(a + f, Blank(d.alerts != []), 1, 1);
    var b := a + f + Blank(d.alerts != []);
    InOrderAppend(b, x, 1, 2);
    InOrderAppend(b + x, Blank(d.actions != []), 2, 2);
    InOrderAppend(b + x + Blank(d.actions != []), o, 2, 3);
  }

  lemma LinesBlank(d: Document)
    requires CleanDocument(d)
    ensures Blanks(DocumentLines(d)) ==
            (if d.headers != [] then 1 else 0) + (if d.alerts != [] then 1 else 0) + (if d.actions != [] then 1 else 0)
  {
    var h, f, x, o := HeaderLines(d.headers), ForestLines(d.entities, 0), AlertLines(d.alerts), ActionLines(d.actions);
    SectionRanks(d);
    NoBlanks(h);
    NoBlanks(f);
    NoBlanks(x);
    NoBlanks(o);
    BlanksOfBlank(d.headers != []);
    BlanksOfBlank(d.alerts != []);
    BlanksOfBlank(d.actions != []);
    SevenBlanks(h, Blank(d.headers != []), f, Blank(d.alerts != []), x, Blank(d.actions != []), o);
  }

  lemma HeadersSetOff(d: Document)
    requires d.headers != []
    ensures |d.headers| < |DocumentLines(d)| && DocumentLines(d)[|d.headers|] == ""
  {
    var h := HeaderLines(d.headers);
    assert (h + Blank(true))[|h|] == "";
    assert h + Blank(true) <= DocumentLines(d);
  }

  lemma SevenBlanks(a: seq<string>, b: seq<string>, c: seq<string>, d: seq<string>, e: seq<string>,
                    f: seq<string>, g: seq<string>)
    ensures Blanks(a + b + c + d + e + f + g) ==
            Blanks(a) + Blanks(b) + Blanks(c) + Blanks(d) + Blanks(e) + Blanks(f) + Blanks(g)
  {
    BlanksConcat(a, b);
    BlanksConcat(a + b, c);
    BlanksConcat(a + b + c, d);
    BlanksConcat(a + b + c + d, e);
    BlanksConcat(a + b + c + d + e, f);
    BlanksConcat(a + b + c + d + e + f, g);
  }

  // The first line with the mark stands below a blank line.
  ghost predicate SetOff(ls: seq<string>, mark: char)
  {
    forall i :: 0 <= i < |ls| && HasMark(ls[i], mark) && (i == 0 || !HasMark(ls[i - 1], mark)) ==>
      i > 0 && ls[i - 1] == ""
  }

  lemma SetOffBetween(p: seq<string>, s: seq<string>, q: seq<string>, mark: char)
    requires (forall l :: l in p ==> !HasMark(l, mark)) && (forall l :: l in q ==> !HasMark(l, mark))
    requires forall l :: l in s ==> HasMark(l, mark)
    requires s != [] ==> p != [] && p[|p| - 1] == ""
    ensures SetOff(p + s + q, mark)
  {
    var ls := p + s + q;
    forall k | 0 <= k < |p| ensures !HasMark(ls[k], mark) && ls[k] == p[k] {
      assert p[k] in p;
    }
    forall k | |p| <= k < |p| + |s| ensures HasMark(ls[k], mark) {
      assert ls[k] == s[k - |p|] && s[k - |p|] in s;
    }
    forall k | |p| + |s| <= k < |ls| ensures !HasMark(ls[k], mark) {
      assert ls[k] == q[k - |p| - |s|] && q[k - |p| - |s|] in q;
    }
  }

  lemma LinesSetOff(d: Document)
    requires CleanDocument(d)
    ensures SetOff(DocumentLines(d), '!') && SetOff(DocumentLines(d), '?')
  {
    var h, f, x, o := HeaderLines(d.headers), ForestLines(d.entities, 0), AlertLines(d.alerts), ActionLines(d.actions);
    SectionRanks(d);
    PartsSetOff(h, Blank(d.headers != []), f, Blank(d.alerts != []), x, Blank(d.actions != []), o);
  }

  lemma PartsSetOff(h: seq<string>, a: seq<string>, f: seq<string>, b: seq<string>, x: seq<string>,
                    c: seq<string>, o: seq<string>)
    requires (forall l :: l in h ==> Rank(l) == 0) && (forall l :: l in f ==> Rank(l) == 1)
    requires (forall l :: l in x ==> l != "" && Rank(l) == 2) && (forall l :: l in o ==> l != "" && Rank(l) == 3)
    requires forall l :: l in a || l in b || l in c ==> l == ""
    requires (x != [] ==> b == [""]) && (o != [] ==> c == [""])
    ensures SetOff(h + a + f + b + x + c + o, '!') && SetOff(h + a + f + b + x + c + o, '?')
  {
    var p := h + a + f + b;
    Unmarks(h, a, f, b);
    SetOffBetween(p, x, c + o, '!');
    Unmarks(p, x, c, []);
    assert p + x + c + [] == p + x + c;
    SetOffBetween(p + x + c, o, [], '?');
    Grouped(p, x, c, o);
  }

  lemma Unmarks(a: seq<string>, b: seq<string>, c: seq<string>, d: seq<string>)
    ensures forall l :: l in a + b + c + d ==> l in a || l in b || l in c || l in d
  {
  }

  lemma Grouped(p: seq<string>, x: seq<string>, q: seq<string>, o: seq<string>)
    ensures p + x + q + o == p + x + (q + o) == (p + x + q) + o + []
  {
  }
}
