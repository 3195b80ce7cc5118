// Reading a printed line back to its fields, when the fields are words.

module Reading {
  import opened Order
  import opened Text
  import opened Manifest
  import opened Anf
  import opened Encoder
  import opened Layout

  // A field without a space, and a key that also has no colon.
  predicate Word(s: string)
  {
    ' ' !in s
  }

  predicate KeyWord(s: string)
  {
    Word(s) && ':' !in s
  }

  // The parts before and after the first c.
  function CutAt(s: string, c: char): Option<(string, string)>
  {
    if s == "" then None
    else if s[0] == c then Some(("", s[1..]))
    else match CutAt(s[1..], c)
      case None => None
      case Some((a, b)) => Some(([s[0]] + a, b))
  }

  lemma {:induction false} CutAtFirst(a: string, c: char, b: string)
    requires c !in a
    ensures CutAt(a + [c] + b, c) == Some((a, b))
  {
    var s := a + [c] + b;
    if a == "" {
      assert s[1..] == b;
    } else {
      assert a[0] in a && a == [a[0]] + a[1..];
      assert s[1..] == a[1..] + [c] + b;
      CutAtFirst(a[1..], c, b);
    }
  }

  // ---- Readers ----------------------------------------------------------------------

  function ReadProp(line: string): Option<Property>
  {
    match CutAt(line, ' ')
    case None => None
    case Some((k, v)) => Some(Property(k, v))
  }

  function ReadHeader(line: string): Option<Header>
  {
    if line == "" || line[0] != '@' then None
    else match CutAt(line[1..], ' ')
      case None => None
      case Some((k, v)) => Some(Header(k, v))
  }

  // Words of the form key:value; None when one has no colon.
  function ReadPairs(ws: seq<string>): Option<seq<Property>>
  {
    if ws == [] then Some([])
    else
      var last := CutAt(ws[|ws| - 1], ':');
      var init := ReadPairs(ws[..|ws| - 1]);
      if last.None? || init.None? then None else Some(init.value + [Property(last.value.0, last.value.1)])
  }

  function TableOf(ps: seq<Property>): map<string, string>
  {
    if ps == [] then map[] else
      var last := ps[|ps| - 1];
      TableOf(ps[..|ps| - 1])[last.key := last.value]
  }

  datatype Head = Head(typ: string, name: string, status: string, props: seq<Property>)

  predicate Bracketed(w: string)
  {
    |w| >= 2 && w[0] == '[' && w[|w| - 1] == ']'
  }

  function ReadHead(line: string): Option<Head>
  {
    var ws := Split(line, ' ');
    if |ws| < 2 then None
    else
      var marked := |ws| > 2 && Bracketed(ws[2]);
      var status := if marked then ws[2][1..|ws[2]| - 1] else "";
      match ReadPairs(if marked then ws[3..] else ws[2..])
      case None => None
      case Some(ps) => Some(Head(ws[0], ws[1], status, ps))
  }

  function ReadAlert(line: string): Option<Alert>
  {
    var ws := Split(line, ' ');
    if |ws| < 4 || ws[0] == "" || ws[0][0] != '!' then None
    else match ReadPairs(ws[4..])
      case None => None
      case Some(ps) => Some(Alert(ws[0][1..], ws[1], ws[2], ws[3], TableOf(ps)))
  }

  function ReadAction(line: string): Option<Operation>
  {
    var ws := Split(line, ' ');
    if |ws| < 3 || ws[0] == "" || ws[0][0] != '?' then None
    else match ReadPairs(ws[3..])
      case None => None
      case Some(ps) => Some(Operation(ws[0][1..], ws[1], ws[2], TableOf(ps)))
  }

  // ---- Words of a line --------------------------------------------------------------

  function PairWords(ps: seq<Property>): seq<string>
  {
    seq(|ps|, i requires 0 <= i < |ps| => ps[i].key + ":" + ps[i].value)
  }

  predicate Wordy(ps: seq<Property>)
  {
    forall i :: 0 <= i < |ps| ==> KeyWord(ps[i].key) && Word(ps[i].value)
  }

  lemma {:induction false} PairsReadBack(ps: seq<Property>)
    requires Wordy(ps)
    ensures ReadPairs(PairWords(ps)) == Some(ps)
    ensures forall w :: w in PairWords(ps) ==> Word(w)
  {
    if ps != [] {
      var init, last := ps[..|ps| - 1], ps[|ps| - 1];
      PairsReadBack(init);
      assert PairWords(ps)[..|ps| - 1] == PairWords(init);
      assert last.key + ":" + last.value == last.key + [':'] + last.value;
      CutAtFirst(last.key, ':', last.value);
      assert ps == init + [last];
    }
  }

  // Words with a space before each.
  function Spaced(ws: seq<string>): string
  {
    if ws == [] then "" else Spaced(ws[..|ws| - 1]) + " " + ws[|ws| - 1]
  }

  lemma {:induction false} SpacedConcat(a: seq<string>, b: seq<string>)
    ensures Spaced(a + b) == Spaced(a) + Spaced(b)
  {
    if b == [] {
      assert a + b == a;
    } else {
      var init := b[..|b| - 1];
      InitOfConcat(a, b);
      SpacedConcat(a, init);
      assert Spaced(a) + Spaced(init) + " " + b[|b| - 1] == Spaced(a) + (Spaced(init) + " " + b[|b| - 1]);
    }
  }

  lemma {:induction false} SpacedIsJoined(w: string, ws: seq<string>)
    ensures w + Spaced(ws) == Join([w] + ws, ' ')
    decreases |ws|
  {
    if ws == [] {
      assert [w] + ws == [w];
    } else {
      SpacedIsJoined(ws[0], ws[1..]);
      assert [ws[0]] + ws[1..] == ws;
      SpacedConcat([ws[0]], ws[1..]);
      SpacedOne(ws[0]);
      assert ([w] + ws)[1..] == ws;
      assert w + (" " + ws[0] + Spaced(ws[1..])) == w + [' '] + (ws[0] + Spaced(ws[1..]));
    }
  }

  lemma SpacedOne(w: string)
    ensures Spaced([w]) == " " + w
  {
    assert [w][..0] == [];
  }

  lemma SplitSpaced(w: string, ws: seq<string>)
    requires Word(w) && forall x :: x in ws ==> Word(x)
    ensures Split(w + Spaced(ws), ' ') == [w] + ws
  {
    SpacedIsJoined(w, ws);
    SplitJoin([w] + ws, ' ');
  }

  // ---- Fields read back -------------------------------------------------------------

  lemma PropReadsBack(p: Property)
    requires Word(p.key)
    ensures ReadProp(PropText(p)) == Some(p)
  {
    assert PropText(p) == p.key + [' '] + p.value;
    CutAtFirst(p.key, ' ', p.value);
  }

  lemma HeaderReadsBack(h: Header)
    requires Word(h.key)
    ensures ReadHeader(HeaderLine(h)) == Some(h)
  {
    assert HeaderLine(h)[1..] == h.key + [' '] + h.value;
    CutAtFirst(h.key, ' ', h.value);
  }

  lemma {:induction false} InlineIsSpaced(ps: seq<Property>)
    ensures InlineText(ps) == Spaced(PairWords(ps))
  {
    if ps != [] {
      var init, last := ps[..|ps| - 1], ps[|ps| - 1];
      InlineIsSpaced(init);
      var ws := PairWords(ps);
      assert ws[..|ws| - 1] == PairWords(init);
      assert InlineText(init) + " " + last.key + ":" + last.value ==
             InlineText(init) + " " + (last.key + ":" + last.value);
    }
  }

  function StatusWords(status: string): seq<string>
  {
    if status == "" then [] else ["[" + status + "]"]
  }

  // The words of an entity's line can be told apart.
  predicate WordyHead(e: Entity)
  {
    && Word(e.typ) && Word(e.name) && Word(e.status) && Wordy(e.inlineProps)
    && forall p :: p in e.inlineProps ==> p.key == "" || p.key[0] != '['
  }

  lemma HeadWords(e: Entity)
    requires WordyHead(e)
    ensures Split(HeadText(e), ' ') == [e.typ, e.name] + StatusWords(e.status) + PairWords(e.inlineProps)
  {
    var s, ps := StatusWords(e.status), PairWords(e.inlineProps);
    PairsReadBack(e.inlineProps);
    HeadIsSpaced(e);
    SplitSpaced(e.typ, [e.name] + s + ps);
    assert [e.typ] + ([e.name] + s + ps) == [e.typ, e.name] + s + ps;
  }

  lemma HeadIsSpaced(e: Entity)
    ensures HeadText(e) == e.typ + Spaced([e.name] + StatusWords(e.status) + PairWords(e.inlineProps))
  {
    InlineIsSpaced(e.inlineProps);
    StatusIsSpaced(e.status);
    SpacedAfter(e.typ, e.name, StatusWords(e.status), PairWords(e.inlineProps));
  }

  lemma SpacedAfter(t: string, w: string, a: seq<string>, b: seq<string>)
    ensures t + Spaced([w] + a + b) == t + " " + w + Spaced(a) + Spaced(b)
  {
    SpacedConcat([w] + a, b);
    SpacedConcat([w], a);
    SpacedOne(w);
    Regroup(t, " ", w, Spaced(a), Spaced(b), "");
  }

  lemma StatusIsSpaced(status: string)
    ensures Spaced(StatusWords(status)) == if status != "" then " [" + status + "]" else ""
  {
    if status != "" {
      SpacedOne("[" + status + "]");
      assert " " + ("[" + status + "]") == " [" + status + "]";
    }
  }

  // An entity's line gives back its type, name, status and inline properties.
  lemma HeadReadsBack(e: Entity)
    requires WordyHead(e)
    ensures ReadHead(HeadText(e)) == Some(Head(e.typ, e.name, e.status, e.inlineProps))
  {
    var s, ps := StatusWords(e.status), PairWords(e.inlineProps);
    var ws := [e.typ, e.name] + s + ps;
    HeadWords(e);
    PairsReadBack(e.inlineProps);
    if e.status != "" {
      var w := "[" + e.status + "]";
      assert ws[2] == w && Bracketed(w) && w[1..|w| - 1] == e.status;
      assert ws[3..] == ps;
    } else {
      assert ws[2..] == ps;
      if ps != [] {
        assert ws[2] == ps[0];
        PairNotBracketed(e.inlineProps[0]);
      }
    }
  }

  lemma PairNotBracketed(p: Property)
    requires p.key == "" || p.key[0] != '['
    ensures !Bracketed(p.key + ":" + p.value)
  {
  }

  // ---- Tables -----------------------------------------------------------------------

  function Rows(m: map<string, string>, keys: seq<string>): seq<Property>
  {
    seq(|keys|, i requires 0 <= i < |keys| => Property(keys[i], if keys[i] in m then m[keys[i]] else ""))
  }

  lemma {:induction false} PairsAreSpaced(m: map<string, string>, keys: seq<string>)
    ensures PairsText(m, keys) == Spaced(PairWords(Rows(m, keys)))
  {
    if keys != [] {
      var init, k := keys[..|keys| - 1], keys[|keys| - 1];
      PairsAreSpaced(m, init);
      var ws := PairWords(Rows(m, keys));
      assert ws[..|ws| - 1] == PairWords(Rows(m, init));
      var v := if k in m then m[k] else "";
      assert PairsText(m, init) + " " + k + ":" + v == PairsText(m, init) + " " + (k + ":" + v);
    }
  }

  lemma {:induction false} RowsTable(m: map<string, string>, keys: seq<string>)
    requires forall k :: k in keys ==> k in m
    ensures TableOf(Rows(m, keys)).Keys == Elems(keys)
    ensures forall k :: k in keys ==> k in TableOf(Rows(m, keys)) && TableOf(Rows(m, keys))[k] == m[k]
  {
    if keys != [] {
      var init, k := keys[..|keys| - 1], keys[|keys| - 1];
      assert keys == init + [k];
      RowsTable(m, init);
      assert Rows(m, keys)[..|keys| - 1] == Rows(m, init);
    }
  }

  predicate WordyTable(m: map<string, string>)
  {
    forall k :: k in m ==> KeyWord(k) && Word(m[k])
  }

  // The pairs of a table, printed in key order, read back to the table.
  lemma TableReadsBack(m: map<string, string>)
    requires WordyTable(m)
    ensures var rows := Rows(m, SortedSet(m.Keys));
            && Wordy(rows) && TableOf(rows) == m && PairsText(m, SortedSet(m.Keys)) == Spaced(PairWords(rows))
  {
    var keys := SortedSet(m.Keys);
    SortedSetIsSorted(m.Keys);
    assert forall k :: k in keys <==> k in Elems(keys);
    RowsTable(m, keys);
    PairsAreSpaced(m, keys);
    var rows := Rows(m, keys);
    forall i | 0 <= i < |rows| ensures KeyWord(rows[i].key) && Word(rows[i].value) {
      assert keys[i] in keys;
    }
  }

  lemma AlertIsSpaced(a: Alert, ps: seq<string>)
    requires PairsText(a.props, SortedSet(a.props.Keys)) == Spaced(ps)
    ensures AlertLine(a) == ("!" + a.severity) + Spaced([a.typ] + [a.name, a.message] + ps)
  {
    SpacedAfter("!" + a.severity, a.typ, [a.name, a.message], ps);
    SpacedTwo(a.name, a.message);
    AlertGroup("!" + a.severity + " " + a.typ, a.name, a.message, Spaced(ps));
  }

  lemma AlertGroup(s: string, n: string, m: string, t: string)
    ensures s + " " + n + " " + m + t == s + (" " + n + " " + m) + t
  {
    assert s + (" " + n + " " + m) == s + " " + n + " " + m;
  }

  lemma SpacedTwo(a: string, b: string)
    ensures Spaced([a, b]) == " " + a + " " + b
  {
    assert [a, b] == [a] + [b];
    SpacedConcat([a], [b]);
    SpacedOne(a);
    SpacedOne(b);
    assert " " + a + (" " + b) == " " + a + " " + b;
  }

  // The words are pairs whose keys ascend.
  predicate KeysAscend(ws: seq<string>)
  {
    var ps := ReadPairs(ws);
    ps.Some? && Ascending(seq(|ps.value|, i requires 0 <= i < |ps.value| => ps.value[i].key))
  }

  lemma RowsAscend(m: map<string, string>)
    requires WordyTable(m)
    ensures KeysAscend(PairWords(Rows(m, SortedSet(m.Keys))))
  {
    var rows := Rows(m, SortedSet(m.Keys));
    SortedSetIsSorted(m.Keys);
    TableReadsBack(m);
    PairsReadBack(rows);
    assert seq(|rows|, i requires 0 <= i < |rows| => rows[i].key) == SortedSet(m.Keys);
  }

  // A printed alert of words reads back to the alert, its properties in the order of their keys.
  lemma AlertReadsBack(a: Alert)
    requires Word(a.severity) && Word(a.typ) && Word(a.name) && Word(a.message) && WordyTable(a.props)
    ensures ReadAlert(AlertLine(a)) == Some(a)
    ensures |Split(AlertLine(a), ' ')| >= 4 && KeysAscend(Split(AlertLine(a), ' ')[4..])
  {
    RowsAscend(a.props);
    var rows := Rows(a.props, SortedSet(a.props.Keys));
    var ps := PairWords(rows);
    TableReadsBack(a.props);
    PairsReadBack(rows);
    var first := "!" + a.severity;
    AlertIsSpaced(a, ps);
    SplitSpaced(first, [a.typ] + [a.name, a.message] + ps);
    AlertOfWords(AlertLine(a), first, a.typ, a.name, a.message, ps, rows);
    assert first[1..] == a.severity;
  }

  lemma AlertOfWords(line: string, first: string, typ: string, name: string, message: string, ps: seq<string>,
                     rows: seq<Property>)
    requires Split(line, ' ') == [first] + ([typ] + [name, message] + ps)
    requires first != "" && first[0] == '!' && ReadPairs(ps) == Some(rows)
    ensures ReadAlert(line) == Some(Alert(first[1..], typ, name, message, TableOf(rows)))
    ensures |Split(line, ' ')| >= 4 && Split(line, ' ')[4..] == ps
  {
    assert Split(line, ' ')[4..] == ps;
  }

  // And so does an action.
  lemma ActionReadsBack(o: Operation)
    requires Word(o.verb) && Word(o.typ) && Word(o.name) && WordyTable(o.params)
    ensures ReadAction(ActionLine(o)) == Some(o)
    ensures |Split(ActionLine(o), ' ')| >= 3 && KeysAscend(Split(ActionLine(o), ' ')[3..])
  {
    RowsAscend(o.params);
    var rows := Rows(o.params, SortedSet(o.params.Keys));
    var ps := PairWords(rows);
    TableReadsBack(o.params);
    PairsReadBack(rows);
    var first := "?" + o.verb;
    ActionIsSpaced(o, ps);
    SplitSpaced(first, [o.typ] + [o.name] + ps);
    ActionOfWords(ActionLine(o), first, o.typ, o.name, ps, rows);
    assert first[1..] == o.verb;
  }

  lemma ActionIsSpaced(o: Operation, ps: seq<string>)
    requires PairsText(o.params, SortedSet(o.params.Keys)) == Spaced(ps)
    ensures ActionLine(o) == ("?" + o.verb) + Spaced([o.typ] + [o.name] + ps)
  {
    var s := "?" + o.verb + " " + o.typ;
    SpacedAfter("?" + o.verb, o.typ, [o.name], ps);
    SpacedOne(o.name);
    assert s + (" " + o.name) == s + " " + o.name;
  }

  lemma ActionOfWords(line: string, first: string, typ: string, name: string, ps: seq<string>, rows: seq<Property>)
    requires Split(line, ' ') == [first] + ([typ] + [name] + ps)
    requires first != "" && first[0] == '?' && ReadPairs(ps) == Some(rows)
    ensures ReadAction(line) == Some(Operation(first[1..], typ, name, TableOf(rows)))
    ensures |Split(line, ' ')| >= 3 && Split(line, ' ')[3..] == ps
  {
    assert Split(line, ' ')[3..] == ps;
  }

  // ---- The whole document -----------------------------------------------------------

  predicate WordyEntity(e: Entity)
  {
    && WordyHead(e)
    && (forall p :: p in e.props ==> Word(p.key))
    && forall x :: x in e.children ==> WordyEntity(x)
  }

  predicate WordyDocument(d: Document)
  {
    && (forall h :: h in d.headers ==> Word(h.key))
    && (forall e :: e in d.entities ==> WordyEntity(e))
    && (forall a :: a in d.alerts ==>
          Word(a.severity) && Word(a.typ) && Word(a.name) && Word(a.message) && WordyTable(a.props))
    && (forall o :: o in d.actions ==> Word(o.verb) && Word(o.typ) && Word(o.name) && WordyTable(o.params))
  }

  // The tree's line gives the entity's own fields; below it stand its properties, then its children.
  ghost predicate Says(t: LineTree, e: Entity)
    decreases e
  {
    && ReadHead(t.text) == Some(Head(e.typ, e.name, e.status, e.inlineProps))
    && |t.kids| == |e.props| + |e.children|
    && (forall i :: 0 <= i < |e.props| ==> t.kids[i].kids == [] && ReadProp(t.kids[i].text) == Some(e.props[i]))
    && forall j :: 0 <= j < |e.children| ==> Says(t.kids[|e.props| + j], e.children[j])
  }

  lemma {:induction false} TreesAt(es: seq<Entity>)
    ensures |TreesOf(es)| == |es| && forall i :: 0 <= i < |es| ==> TreesOf(es)[i] == TreeOf(es[i])
  {
    if es != [] {
      TreesAt(es[1..]);
    }
  }

  lemma {:induction false} TreeSays(e: Entity)
    requires WordyEntity(e)
    ensures Says(TreeOf(e), e)
    decreases e
  {
    HeadReadsBack(e);
    TreesAt(e.children);
    forall i | 0 <= i < |e.props| ensures ReadProp(PropText(e.props[i])) == Some(e.props[i]) {
      assert e.props[i] in e.props;
      PropReadsBack(e.props[i]);
    }
    forall j | 0 <= j < |e.children| ensures Says(TreeOf(e.children[j]), e.children[j]) {
      assert e.children[j] in e.children;
      TreeSays(e.children[j]);
    }
  }

  ghost predicate HeadersTold(lines: seq<string>, hs: seq<Header>)
  {
    |lines| == |hs| && forall i :: 0 <= i < |hs| ==> ReadHeader(lines[i]) == Some(hs[i])
  }

  ghost predicate AlertsTold(lines: seq<string>, xs: seq<Alert>)
  {
    |lines| == |xs| && forall i :: 0 <= i < |xs| ==> ReadAlert(lines[i]) == Some(xs[i])
  }

  ghost predicate ActionsTold(lines: seq<string>, os: seq<Operation>)
  {
    |lines| == |os| && forall i :: 0 <= i < |os| ==> ReadAction(lines[i]) == Some(os[i])
  }

  ghost predicate EntitiesTold(trees: seq<LineTree>, es: seq<Entity>)
  {
    |trees| == |es| && forall i :: 0 <= i < |es| ==> Says(trees[i], es[i])
  }

  lemma HeadersReadBack(hs: seq<Header>)
    requires forall h :: h in hs ==> Word(h.key)
    ensures HeadersTold(HeaderLines(hs), hs)
  {
    forall i | 0 <= i < |hs| ensures ReadHeader(HeaderLine(hs[i])) == Some(hs[i]) {
      assert hs[i] in hs;
      HeaderReadsBack(hs[i]);
    }
  }

  lemma AlertsReadBack(d: Document)
    requires WordyDocument(d)
    ensures AlertsTold(AlertLines(d.alerts), d.alerts)
  {
    forall i | 0 <= i < |d.alerts| ensures ReadAlert(AlertLine(d.alerts[i])) == Some(d.alerts[i]) {
      assert d.alerts[i] in d.alerts;
      AlertReadsBack(d.alerts[i]);
    }
  }

  lemma ActionsReadBack(d: Document)
    requires WordyDocument(d)
    ensures ActionsTold(ActionLines(d.actions), d.actions)
  {
    forall i | 0 <= i < |d.actions| ensures ReadAction(ActionLine(d.actions[i])) == Some(d.actions[i]) {
      assert d.actions[i] in d.actions;
      ActionReadsBack(d.actions[i]);
    }
  }

  lemma EntitiesReadBack(es: seq<Entity>)
    requires forall e :: e in es ==> WordyEntity(e)
    ensures EntitiesTold(TreesOf(es), es)
  {
    TreesAt(es);
    forall i | 0 <= i < |es| ensures Says(TreeOf(es[i]), es[i]) {
      assert es[i] in es;
      TreeSays(es[i]);
    }
  }

  // From the printed text alone: the headers, alerts and actions come back field by field, and every
  // entity's line, property lines and children say what the document says.
  lemma DocumentReadsBack(d: Document)
    requires CleanDocument(d) && WordyDocument(d)
    ensures var lines := SplitLines(Unlines(DocumentLines(d)));
            && HeadersTold(Marked(lines, '@'), d.headers)
            && AlertsTold(Marked(lines, '!'), d.alerts)
            && ActionsTold(Marked(lines, '?'), d.actions)
            && EntitiesTold(ReadForest(EntityPart(lines), 0).0, d.entities)
  {
    DocumentRoundTrip(d);
    HeadersReadBack(d.headers);
    AlertsReadBack(d);
    ActionsReadBack(d);
    EntitiesReadBack(d.entities);
  }
}
