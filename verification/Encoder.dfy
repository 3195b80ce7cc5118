// pkg/anf/encoder.go: the indentation printer.

module Encoder {
  import opened Order
  import opened Anf

  class StringBuilder {
    var buf: string

    constructor ()
      ensures buf == ""
    {
      buf := "";
    }

    method WriteString(s: string)
      modifies this
      ensures buf == old(buf) + s
    {
      buf := buf + s;
    }
  }

  // ---- The text of a document, line by line ------------------------------------------

  function Unlines(lines: seq<string>): string
  {
    if lines == [] then "" else Unlines(lines[..|lines| - 1]) + lines[|lines| - 1] + "\n"
  }

  function Indent(depth: nat): string
  {
    if depth == 0 then "" else Indent(depth - 1) + "  "
  }

  function InlineText(props: seq<Property>): string
  {
    if props == [] then "" else
      var p := props[|props| - 1];
      InlineText(props[..|props| - 1]) + " " + p.key + ":" + p.value
  }

  function HeadText(e: Entity): string
  {
    e.typ + " " + e.name + (if e.status != "" then " [" + e.status + "]" else "") + InlineText(e.inlineProps)
  }

  function PropText(p: Property): string
  {
    p.key + " " + p.value
  }

  function PropLines(props: seq<Property>, depth: nat): seq<string>
  {
    if props == [] then [] else
      PropLines(props[..|props| - 1], depth) + [Indent(depth) + PropText(props[|props| - 1])]
  }

  function EntityLines(e: Entity, depth: nat): seq<string>
    decreases e, 0
  {
    [Indent(depth) + HeadText(e)] + PropLines(e.props, depth + 1) + ForestLines(e.children, depth + 1)
  }

  function ForestLines(es: seq<Entity>, depth: nat): seq<string>
    decreases es, 1
  {
    if es == [] then [] else ForestLines(es[..|es| - 1], depth) + EntityLines(es[|es| - 1], depth)
  }

  ghost function PairsText(m: map<string, string>, keys: seq<string>): string
  {
    if keys == [] then "" else
      var k := keys[|keys| - 1];
      PairsText(m, keys[..|keys| - 1]) + " " + k + ":" + if k in m then m[k] else ""
  }

  function Subject(mark: string, word: string, typ: string, name: string): string
  {
    mark + word + " " + typ + " " + name
  }

  ghost function AlertLine(a: Alert): string
  {
    Subject("!", a.severity, a.typ, a.name) + " " + a.message + PairsText(a.props, SortedSet(a.props.Keys))
  }

  ghost function ActionLine(a: Operation): string
  {
    Subject("?", a.verb, a.typ, a.name) + PairsText(a.params, SortedSet(a.params.Keys))
  }

  function HeaderLine(h: Header): string
  {
    "@" + h.key + " " + h.value
  }

  ghost function HeaderLines(hs: seq<Header>): seq<string>
  {
    seq(|hs|, i requires 0 <= i < |hs| => HeaderLine(hs[i]))
  }

  ghost function AlertLines(xs: seq<Alert>): seq<string>
  {
    seq(|xs|, i requires 0 <= i < |xs| => AlertLine(xs[i]))
  }

  ghost function ActionLines(xs: seq<Operation>): seq<string>
  {
    seq(|xs|, i requires 0 <= i < |xs| => ActionLine(xs[i]))
  }

  // A blank line where a section that is there has to be set off.
  function Blank(present: bool): seq<string>
  {
    if present then [""] else []
  }

  ghost function DocumentLines(d: Document): seq<string>
  {
    HeaderLines(d.headers) + Blank(d.headers != []) + ForestLines(d.entities, 0) +
    Blank(d.alerts != []) + AlertLines(d.alerts) + Blank(d.actions != []) + ActionLines(d.actions)
  }

  lemma {:induction false} UnlinesConcat(a: seq<string>, b: seq<string>)
    ensures Unlines(a + b) == Unlines(a) + Unlines(b)
  {
    if b == [] {
      assert a + b == a;
    } else {
      var init, last := b[..|b| - 1], b[|b| - 1];
      UnlinesConcat(a, init);
      InitOfConcat(a, b);
      Regroup(Unlines(a), Unlines(init), last, "\n", "", "");
    }
  }

  lemma UnlinesOne(l: string)
    ensures Unlines([l]) == l + "\n"
  {
    assert [l][..0] == [];
  }

  lemma UnlinesSnoc(a: seq<string>, l: string)
    ensures Unlines(a + [l]) == Unlines(a) + l + "\n"
  {
    assert (a + [l])[..|a|] == a;
  }

  // ---- The printer ------------------------------------------------------------------

  method WriteIndent(b: StringBuilder, depth: nat)
    modifies b
    ensures b.buf == old(b.buf) + Indent(depth)
  {
    for i := 0 to depth
      invariant b.buf == old(b.buf) + Indent(i)
    {
      b.WriteString("  ");
    }
  }

  lemma Regroup(a: string, b: string, c: string, d: string, e: string, f: string)
    ensures a + b + c + d + e + f == a + (b + c + d + e + f)
  {
  }

  method WriteInline(b: StringBuilder, props: seq<Property>)
    modifies b
    ensures b.buf == old(b.buf) + InlineText(props)
  {
    for i := 0 to |props|
      invariant b.buf == old(b.buf) + InlineText(props[..i])
    {
      assert props[..i + 1][..i] == props[..i];
      Regroup(old(b.buf), InlineText(props[..i]), " ", props[i].key, ":", props[i].value);
      b.WriteString(" ");
      b.WriteString(props[i].key);
      b.WriteString(":");
      b.WriteString(props[i].value);
    }
    assert props[..|props|] == props;
  }

  method WriteHead(b: StringBuilder, e: Entity)
    modifies b
    ensures b.buf == old(b.buf) + HeadText(e)
  {
    ghost var status := if e.status != "" then " [" + e.status + "]" else "";
    b.WriteString(e.typ);
    b.WriteString(" ");
    b.WriteString(e.name);
    ghost var start := b.buf;
    if e.status != "" {
      b.WriteString(" [");
      b.WriteString(e.status);
      b.WriteString("]");
    }
    assert b.buf == start + status;
    WriteInline(b, e.inlineProps);
    Regroup(old(b.buf), e.typ, " ", e.name, status, InlineText(e.inlineProps));
  }

  method WriteProps(b: StringBuilder, props: seq<Property>, depth: nat)
    modifies b
    ensures b.buf == old(b.buf) + Unlines(PropLines(props, depth))
  {
    for i := 0 to |props|
      invariant b.buf == old(b.buf) + Unlines(PropLines(props[..i], depth))
    {
      WriteProp(b, props[i], depth);
      PropStep(old(b.buf), props, i, depth);
    }
    assert props[..|props|] == props;
  }

  method WriteProp(b: StringBuilder, p: Property, depth: nat)
    modifies b
    ensures b.buf == old(b.buf) + (Indent(depth) + PropText(p)) + "\n"
  {
    WriteIndent(b, depth);
    b.WriteString(p.key);
    b.WriteString(" ");
    b.WriteString(p.value);
    Regroup(old(b.buf), Indent(depth), p.key, " ", p.value, "");
    Regroup(Indent(depth), p.key, " ", p.value, "", "");
    b.WriteString("\n");
  }

  lemma PropLinesStep(props: seq<Property>, i: nat, depth: nat)
    requires i < |props|
    ensures PropLines(props[..i + 1], depth) ==
            PropLines(props[..i], depth) + [Indent(depth) + PropText(props[i])]
  {
    assert props[..i + 1][..i] == props[..i];
  }

  lemma LineStep(start: string, lines: seq<string>, last: string)
    ensures start + Unlines(lines) + last + "\n" == start + Unlines(lines + [last])
  {
    UnlinesSnoc(lines, last);
    Regroup(start, Unlines(lines), last, "\n", "", "");
  }

  lemma PropStep(start: string, props: seq<Property>, i: nat, depth: nat)
    requires i < |props|
    ensures start + Unlines(PropLines(props[..i], depth)) + (Indent(depth) + PropText(props[i])) + "\n" ==
            start + Unlines(PropLines(props[..i + 1], depth))
  {
    PropLinesStep(props, i, depth);
    LineStep(start, PropLines(props[..i], depth), Indent(depth) + PropText(props[i]));
  }

  method WriteEntity(b: StringBuilder, e: Entity, depth: nat)
    modifies b
    ensures b.buf == old(b.buf) + Unlines(EntityLines(e, depth))
    decreases e, 1
  {
    ghost var head := [Indent(depth) + HeadText(e)];
    ghost var props, kids := PropLines(e.props, depth + 1), ForestLines(e.children, depth + 1);
    WriteLine(b, e, depth);
    WriteProps(b, e.props, depth + 1);
    WriteForest(b, e.children, depth + 1);
    ThreeParts(old(b.buf), head, props, kids);
  }

  lemma ThreeParts(start: string, a: seq<string>, b: seq<string>, c: seq<string>)
    ensures start + Unlines(a) + Unlines(b) + Unlines(c) == start + Unlines(a + b + c)
  {
    UnlinesConcat(a, b);
    UnlinesConcat(a + b, c);
    Regroup(start, Unlines(a), Unlines(b), Unlines(c), "", "");
  }

  method WriteLine(b: StringBuilder, e: Entity, depth: nat)
    modifies b
    ensures b.buf == old(b.buf) + Unlines([Indent(depth) + HeadText(e)])
  {
    UnlinesOne(Indent(depth) + HeadText(e));
    WriteIndent(b, depth);
    WriteHead(b, e);
    b.WriteString("\n");
  }

  method WriteForest(b: StringBuilder, es: seq<Entity>, depth: nat)
    modifies b
    ensures b.buf == old(b.buf) + Unlines(ForestLines(es, depth))
    decreases es, 0
  {
    for i := 0 to |es|
      invariant b.buf == old(b.buf) + Unlines(ForestLines(es[..i], depth))
    {
      ForestStep(es, i, depth);
      ghost var before := old(b.buf);
      ghost var head, body := Unlines(ForestLines(es[..i], depth)), Unlines(EntityLines(es[i], depth));
      WriteEntity(b, es[i], depth);
      assert before + head + body == before + (head + body);
    }
    assert es[..|es|] == es;
  }

  lemma ForestStep(es: seq<Entity>, i: nat, depth: nat)
    requires i < |es|
    ensures Unlines(ForestLines(es[..i + 1], depth)) ==
            Unlines(ForestLines(es[..i], depth)) + Unlines(EntityLines(es[i], depth))
  {
    assert es[..i + 1][..i] == es[..i];
    UnlinesConcat(ForestLines(es[..i], depth), EntityLines(es[i], depth));
  }

  lemma PairStep(start: string, m: map<string, string>, keys: seq<string>, i: nat)
    requires i < |keys| && forall k :: k in keys ==> k in m
    ensures start + PairsText(m, keys[..i]) + " " + keys[i] + ":" + m[keys[i]] == start + PairsText(m, keys[..i + 1])
  {
    assert keys[..i + 1][..i] == keys[..i];
    Regroup(start, PairsText(m, keys[..i]), " ", keys[i], ":", m[keys[i]]);
  }

  method WritePairs(b: StringBuilder, m: map<string, string>)
    modifies b
    ensures b.buf == old(b.buf) + PairsText(m, SortedSet(m.Keys))
  {
    var keys := SortedKeys(m.Keys);
    SortedSetIsSorted(m.Keys);
    for i := 0 to |keys|
      invariant b.buf == old(b.buf) + PairsText(m, keys[..i])
    {
      assert keys[i] in Elems(keys);
      PairStep(old(b.buf), m, keys, i);
      b.WriteString(" ");
      b.WriteString(keys[i]);
      b.WriteString(":");
      b.WriteString(m[keys[i]]);
    }
    assert keys[..|keys|] == keys;
  }

  // The opening that alert and action lines share.
  method WriteSubject(b: StringBuilder, mark: string, word: string, typ: string, name: string)
    modifies b
    ensures b.buf == old(b.buf) + Subject(mark, word, typ, name)
  {
    b.WriteString(mark);
    b.WriteString(word);
    b.WriteString(" ");
    b.WriteString(typ);
    b.WriteString(" ");
    b.WriteString(name);
    Regroup(old(b.buf), mark, word, " ", typ, " ");
    Regroup(old(b.buf), mark + word + " " + typ + " ", name, "", "", "");
  }

  method WriteAlert(b: StringBuilder, a: Alert)
    modifies b
    ensures b.buf == old(b.buf) + AlertLine(a) + "\n"
  {
    WriteSubject(b, "!", a.severity, a.typ, a.name);
    b.WriteString(" ");
    b.WriteString(a.message);
    WritePairs(b, a.props);
    Regroup(old(b.buf), Subject("!", a.severity, a.typ, a.name), " ", a.message,
      PairsText(a.props, SortedSet(a.props.Keys)), "");
    b.WriteString("\n");
  }

  method WriteAction(b: StringBuilder, a: Operation)
    modifies b
    ensures b.buf == old(b.buf) + ActionLine(a) + "\n"
  {
    WriteSubject(b, "?", a.verb, a.typ, a.name);
    WritePairs(b, a.params);
    Regroup(old(b.buf), Subject("?", a.verb, a.typ, a.name), PairsText(a.params, SortedSet(a.params.Keys)), "", "", "");
    b.WriteString("\n");
  }

  lemma AppendLine(start: string, lines: seq<string>, i: nat)
    requires i < |lines|
    ensures start + Unlines(lines[..i]) + lines[i] + "\n" == start + Unlines(lines[..i + 1])
  {
    assert lines[..i + 1] == lines[..i] + [lines[i]];
    UnlinesSnoc(lines[..i], lines[i]);
    assert start + Unlines(lines[..i]) + lines[i] + "\n" == start + (Unlines(lines[..i]) + lines[i] + "\n");
  }

  method WriteHeaders(b: StringBuilder, hs: seq<Header>)
    modifies b
    ensures b.buf == old(b.buf) + Unlines(HeaderLines(hs))
  {
    for i := 0 to |hs|
      invariant b.buf == old(b.buf) + Unlines(HeaderLines(hs)[..i])
    {
      WriteHeader(b, hs[i]);
      AppendLine(old(b.buf), HeaderLines(hs), i);
    }
    assert HeaderLines(hs)[..|hs|] == HeaderLines(hs);
  }

  method WriteHeader(b: StringBuilder, h: Header)
    modifies b
    ensures b.buf == old(b.buf) + HeaderLine(h) + "\n"
  {
    b.WriteString("@");
    b.WriteString(h.key);
    b.WriteString(" ");
    b.WriteString(h.value);
    b.WriteString("\n");
  }

  method WriteAlerts(b: StringBuilder, xs: seq<Alert>)
    modifies b
    ensures b.buf == old(b.buf) + Unlines(AlertLines(xs))
  {
    for i := 0 to |xs|
      invariant b.buf == old(b.buf) + Unlines(AlertLines(xs)[..i])
    {
      WriteAlert(b, xs[i]);
      AppendLine(old(b.buf), AlertLines(xs), i);
    }
    assert AlertLines(xs)[..|xs|] == AlertLines(xs);
  }

  method WriteActions(b: StringBuilder, xs: seq<Operation>)
    modifies b
    ensures b.buf == old(b.buf) + Unlines(ActionLines(xs))
  {
    for i := 0 to |xs|
      invariant b.buf == old(b.buf) + Unlines(ActionLines(xs)[..i])
    {
      WriteAction(b, xs[i]);
      AppendLine(old(b.buf), ActionLines(xs), i);
    }
    assert ActionLines(xs)[..|xs|] == ActionLines(xs);
  }

  method WriteBlank(b: StringBuilder, present: bool)
    modifies b
    ensures b.buf == old(b.buf) + Unlines(Blank(present))
  {
    UnlinesOne("");
    if present {
      b.WriteString("\n");
    }
  }

  method Encode(d: Document) returns (text: string)
    ensures text == Unlines(DocumentLines(d))
  {
    var b := new StringBuilder();
    WriteHeaders(b, d.headers);
    assert b.buf == Unlines(HeaderLines(d.headers));
    WriteBlank(b, d.headers != []);
    WriteForest(b, d.entities, 0);
    WriteBlank(b, d.alerts != []);
    WriteAlerts(b, d.alerts);
    WriteBlank(b, d.actions != []);
    WriteActions(b, d.actions);
    SectionsConcat(d);
    text := b.buf;
  }

  lemma SectionsConcat(d: Document)
    ensures Unlines(DocumentLines(d)) ==
            Unlines(HeaderLines(d.headers)) + Unlines(Blank(d.headers != [])) + Unlines(ForestLines(d.entities, 0)) +
            Unlines(Blank(d.alerts != [])) + Unlines(AlertLines(d.alerts)) +
            Unlines(Blank(d.actions != [])) + Unlines(ActionLines(d.actions))
  {
    var h, b1, f := HeaderLines(d.headers), Blank(d.headers != []), ForestLines(d.entities, 0);
    var b2, a, b3, o := Blank(d.alerts != []), AlertLines(d.alerts), Blank(d.actions != []), ActionLines(d.actions);
    UnlinesConcat(h, b1);
    UnlinesConcat(h + b1, f);
    UnlinesConcat(h + b1 + f, b2);
    UnlinesConcat(h + b1 + f + b2, a);
    UnlinesConcat(h + b1 + f + b2 + a, b3);
    UnlinesConcat(h + b1 + f + b2 + a + b3, o);
  }
}
