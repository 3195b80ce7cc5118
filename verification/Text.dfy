// The string operations the sources share, over ASCII text.

module Text {

  predicate IsSpace(c: char)
  {
    c == ' ' || '\t' <= c <= '\r'
  }

  function LowerChar(c: char): char
  {
    if 'A' <= c <= 'Z' then (c as int + 32) as char else c
  }

  function Lower(s: string): (r: string)
  {
    seq(|s|, i requires 0 <= i < |s| => LowerChar(s[i]))
  }

  function TrimLeft(s: string): string
  {
    if s != "" && IsSpace(s[0]) then TrimLeft(s[1..]) else s
  }

  function TrimRight(s: string): string
  {
    if s != "" && IsSpace(s[|s| - 1]) then TrimRight(s[..|s| - 1]) else s
  }

  // Go's strings.TrimSpace.
  function Trim(s: string): string
  {
    TrimRight(TrimLeft(s))
  }

  // strings.ToLower(strings.TrimSpace(s)), the form in which capabilities are compared.
  function Norm(s: string): string
  {
    Lower(Trim(s))
  }

  predicate HasPrefix(s: string, p: string)
  {
    p <= s
  }

  predicate HasSuffix(s: string, p: string)
  {
    |p| <= |s| && s[|s| - |p|..] == p
  }

  function TrimSuffix(s: string, p: string): string
  {
    if HasSuffix(s, p) then s[..|s| - |p|] else s
  }

  function Join(parts: seq<string>, sep: char): string
  {
    if parts == [] then ""
    else if |parts| == 1 then parts[0]
    else parts[0] + [sep] + Join(parts[1..], sep)
  }

  // Go's strings.Split with a one-character separator: never empty.
  function Split(s: string, sep: char): (r: seq<string>)
    ensures |r| >= 1
  {
    if s == "" then [""]
    else
      var rest := Split(s[1..], sep);
      if s[0] == sep then [""] + rest else [[s[0]] + rest[0]] + rest[1..]
  }

  lemma LowerIdempotent(s: string)
    ensures Lower(Lower(s)) == Lower(s)
  {
  }

  predicate Trimmed(s: string)
  {
    s == "" || (!IsSpace(s[0]) && !IsSpace(s[|s| - 1]))
  }

  lemma {:induction false} TrimRightFacts(s: string)
    ensures TrimRight(s) <= s
    ensures TrimRight(s) == "" || !IsSpace(TrimRight(s)[|TrimRight(s)| - 1])
  {
    if s != "" && IsSpace(s[|s| - 1]) {
      TrimRightFacts(s[..|s| - 1]);
    }
  }

  lemma {:induction false} TrimLeftFacts(s: string)
    ensures TrimLeft(s) == "" || !IsSpace(TrimLeft(s)[0])
  {
    if s != "" && IsSpace(s[0]) {
      TrimLeftFacts(s[1..]);
    }
  }

  lemma TrimIsTrimmed(s: string)
    ensures Trimmed(Trim(s))
  {
    TrimLeftFacts(s);
    TrimRightFacts(TrimLeft(s));
  }

  // Nothing but blanks, tabs, line feeds, vertical tabs, form feeds and carriage returns.
  predicate AllSpace(s: string)
  {
    forall i :: 0 <= i < |s| ==> s[i] in {' ', '\t', '\n', '\U{0B}', '\U{0C}', '\r'}
  }

  // Trimming takes white space off both ends and nothing else.
  lemma TrimStrips(s: string) returns (lead: string, trail: string)
    ensures s == lead + Trim(s) + trail && AllSpace(lead) && AllSpace(trail) && Trimmed(Trim(s))
    ensures Trim(s) == "" <==> AllSpace(s)
  {
    lead := LeftStrips(s);
    trail := RightStrips(TrimLeft(s));
    TrimIsTrimmed(s);
    StrippedParts(s, lead, Trim(s), trail);
  }

  lemma StrippedParts(s: string, lead: string, t: string, trail: string)
    requires s == lead + (t + trail) && AllSpace(lead) && AllSpace(trail) && Trimmed(t)
    ensures s == lead + t + trail && (t == "" <==> AllSpace(s))
  {
    forall i | 0 <= i < |t| ensures t[i] == s[|lead| + i] {
    }
  }

  lemma {:induction false} LeftStrips(s: string) returns (lead: string)
    ensures s == lead + TrimLeft(s) && AllSpace(lead)
  {
    lead := "";
    if s != "" && IsSpace(s[0]) {
      lead := LeftStrips(s[1..]);
      assert s == [s[0]] + s[1..];
      lead := [s[0]] + lead;
    }
  }

  lemma {:induction false} RightStrips(s: string) returns (trail: string)
    ensures s == TrimRight(s) + trail && AllSpace(trail)
  {
    trail := "";
    if s != "" && IsSpace(s[|s| - 1]) {
      trail := RightStrips(s[..|s| - 1]);
      assert s == s[..|s| - 1] + [s[|s| - 1]];
      trail := trail + [s[|s| - 1]];
    }
  }

  // The same character, or the capital and the small form of one letter.
  predicate SameLetter(a: char, b: char)
  {
    || a == b
    || ('A' <= a <= 'Z' && b as int == a as int + 32)
    || ('A' <= b <= 'Z' && a as int == b as int + 32)
  }

  predicate SameIgnoringCase(s: string, t: string)
  {
    |s| == |t| && forall i :: 0 <= i < |s| ==> SameLetter(s[i], t[i])
  }

  // Comparing lower-case forms is comparing letter by letter, ignoring case.
  lemma LowerIgnoresCase(s: string, t: string)
    ensures Lower(s) == Lower(t) <==> SameIgnoringCase(s, t)
  {
    if Lower(s) == Lower(t) {
      assert |Lower(s)| == |s| && |Lower(t)| == |t|;
      forall i | 0 <= i < |s| ensures SameLetter(s[i], t[i]) {
        assert LowerChar(s[i]) == Lower(s)[i] == Lower(t)[i] == LowerChar(t[i]);
      }
    }
  }

  lemma TrimmedIsFixed(s: string)
    requires Trimmed(s)
    ensures Trim(s) == s
  {
  }

  // Normalising is idempotent.
  lemma NormIdempotent(s: string)
    ensures Norm(Norm(s)) == Norm(s)
  {
    TrimIsTrimmed(s);
    assert Trimmed(Norm(s));
    TrimmedIsFixed(Norm(s));
    LowerIdempotent(Trim(s));
  }

  lemma NormOfTrimmed(s: string)
    requires Trimmed(s)
    ensures Norm(s) == Lower(s)
    ensures s != "" ==> Norm(s) != ""
  {
    TrimmedIsFixed(s);
  }

  // Splitting undoes joining exactly when no part holds the separator.
  lemma {:induction false} SplitPlain(s: string, sep: char)
    requires sep !in s
    ensures Split(s, sep) == [s]
  {
    if s != "" {
      SplitPlain(s[1..], sep);
      assert s[0] in s;
      assert s == [s[0]] + s[1..];
    }
  }

  lemma {:induction false} SplitAfter(s: string, sep: char, t: string)
    requires sep !in s
    ensures Split(s + [sep] + t, sep) == [s] + Split(t, sep)
  {
    var whole := s + [sep] + t;
    if s == "" {
      assert whole[1..] == t;
    } else {
      SplitAfter(s[1..], sep, t);
      assert whole[1..] == s[1..] + [sep] + t;
      assert s == [s[0]] + s[1..];
    }
  }

  lemma {:induction false} SplitJoin(parts: seq<string>, sep: char)
    requires parts != [] && forall p :: p in parts ==> sep !in p
    ensures Split(Join(parts, sep), sep) == parts
  {
    if |parts| == 1 {
      SplitPlain(parts[0], sep);
    } else {
      SplitJoin(parts[1..], sep);
      SplitAfter(parts[0], sep, Join(parts[1..], sep));
      assert parts == [parts[0]] + parts[1..];
    }
  }

  lemma {:induction false} SplitPartsArePlain(s: string, sep: char)
    ensures forall p :: p in Split(s, sep) ==> sep !in p
  {
    if s != "" {
      SplitPartsArePlain(s[1..], sep);
      var rest := Split(s[1..], sep);
      assert rest[0] in rest;
      forall p | p in Split(s, sep) ensures sep !in p {
        assert p in rest || p == "" || p == [s[0]] + rest[0];
      }
    }
  }

  lemma JoinLonger(c: char, parts: seq<string>, sep: char)
    requires parts != []
    ensures Join([[c] + parts[0]] + parts[1..], sep) == [c] + Join(parts, sep)
  {
    var r := [[c] + parts[0]] + parts[1..];
    assert r[1..] == parts[1..];
    if |parts| > 1 {
      assert ([c] + parts[0]) + [sep] + Join(parts[1..], sep) == [c] + (parts[0] + [sep] + Join(parts[1..], sep));
    }
  }

  lemma JoinBlankFirst(parts: seq<string>, sep: char)
    requires parts != []
    ensures Join([""] + parts, sep) == [sep] + Join(parts, sep)
  {
    assert ([""] + parts)[1..] == parts;
  }

  lemma {:induction false} JoinSplit(s: string, sep: char)
    ensures Join(Split(s, sep), sep) == s
  {
    if s != "" {
      var rest := Split(s[1..], sep);
      JoinSplit(s[1..], sep);
      JoinBlankFirst(rest, sep);
      JoinLonger(s[0], rest, sep);
      assert s == [s[0]] + s[1..];
    }
  }

  lemma SuffixAfter(front: string, tail: string, last: string)
    requires HasSuffix(tail, last)
    ensures HasSuffix(front + tail, last)
  {
    var whole := front + tail;
    assert whole[|whole| - |last|..] == tail[|tail| - |last|..];
  }

  lemma {:induction false} JoinEnd(parts: seq<string>, sep: char)
    requires parts != []
    ensures HasSuffix(Join(parts, sep), parts[|parts| - 1])
  {
    if |parts| > 1 {
      JoinEnd(parts[1..], sep);
      assert parts[1..][|parts| - 2] == parts[|parts| - 1];
      SuffixAfter(parts[0] + [sep], Join(parts[1..], sep), parts[|parts| - 1]);
    }
  }

  // ---- Decimal numerals -------------------------------------------------------------

  function Digit(d: nat): char
    requires d < 10
  {
    ('0' as int + d) as char
  }

  // Go's fmt "%d" on a non-negative number.
  function Decimal(n: nat): (s: string)
    ensures s != ""
  {
    if n < 10 then [Digit(n)] else Decimal(n / 10) + [Digit(n % 10)]
  }

  function SignedDecimal(n: int): string
  {
    if n < 0 then "-" + Decimal(-n) else Decimal(n)
  }

  predicate IsDigit(c: char)
  {
    '0' <= c <= '9'
  }

  // Reading a run of digits; -1 on anything else.
  function ReadDecimal(s: string): (r: int)
  {
    if s == "" then -1
    else
      var c := s[|s| - 1];
      if !IsDigit(c) then -1
      else if |s| == 1 then c as int - '0' as int
      else
        var high := ReadDecimal(s[..|s| - 1]);
        if high < 0 then -1 else 10 * high + (c as int - '0' as int)
  }

  lemma {:induction false} ReadDecimalBack(n: nat)
    ensures ReadDecimal(Decimal(n)) == n
    ensures forall c :: c in Decimal(n) ==> IsDigit(c)
  {
    if n >= 10 {
      ReadDecimalBack(n / 10);
      var s := Decimal(n / 10) + [Digit(n % 10)];
      assert s[..|s| - 1] == Decimal(n / 10);
    }
  }

  lemma DecimalInjective(m: nat, n: nat)
    requires Decimal(m) == Decimal(n)
    ensures m == n
  {
    ReadDecimalBack(m);
    ReadDecimalBack(n);
  }
}
