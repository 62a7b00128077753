/** canonicalize_text of canonicalization.py: line endings and insignificant
    whitespace. NFC comes first and is not modelled here. */
module CanonicalText {

  const SPACE := ' '
  const NEWLINE := '\n'

  /** str.isspace. */
  predicate IsSpace(c: char) {
    || '\t' <= c <= '\r' || '\U{1C}' <= c <= ' ' || c == '\U{85}' || c == '\U{A0}' || c == '\U{1680}'
    || '\U{2000}' <= c <= '\U{200A}' || c == '\U{2028}' || c == '\U{2029}' || c == '\U{202F}'
    || c == '\U{205F}' || c == '\U{3000}'
  }

  /** What _HORIZONTAL_WHITESPACE matches. */
  predicate IsBlank(c: char) { IsSpace(c) && c != NEWLINE }

  // ------------------------------------------------------------ the passes of the code

  /** The line endings that are replaced. */
  predicate IsLineEnd(c: char) { c in {NEWLINE, '\r', '\U{85}', '\U{2028}', '\U{2029}'} }

  /** The five replacements that leave "\n" as the only line ending. */
  function FoldNewlines(s: string): string {
    if s == [] then []
    else if s[0] == '\r' && |s| > 1 && s[1] == NEWLINE then [NEWLINE] + FoldNewlines(s[2..])
    else [if IsLineEnd(s[0]) then NEWLINE else s[0]] + FoldNewlines(s[1..])
  }

  /** Each run of blanks becomes one space. */
  function CollapseBlanks(s: string): string {
    if s == [] then []
    else if !IsBlank(s[0]) then [s[0]] + CollapseBlanks(s[1..])
    else if |s| > 1 && IsBlank(s[1]) then CollapseBlanks(s[1..])
    else [SPACE] + CollapseBlanks(s[1..])
  }

  function SkipSpaces(s: string): (r: string)
    ensures |r| <= |s|
  {
    if s != [] && s[0] == SPACE then SkipSpaces(s[1..]) else s
  }

  /** No space is left next to a newline. */
  function TrimAroundNewlines(s: string): string
    decreases |s|
  {
    if s == [] then []
    else
      var rest := SkipSpaces(s);
      if rest != [] && rest[0] == NEWLINE then [NEWLINE] + TrimAroundNewlines(SkipSpaces(rest[1..]))
      else [s[0]] + TrimAroundNewlines(s[1..])
  }

  function CollapseNewlines(s: string): string {
    if s == [] then []
    else if s[0] == NEWLINE && |s| > 1 && s[1] == NEWLINE then CollapseNewlines(s[1..])
    else [s[0]] + CollapseNewlines(s[1..])
  }

  /** str.strip. */
  function Strip(s: string): string {
    if s != [] && IsSpace(s[0]) then Strip(s[1..])
    else if s != [] && IsSpace(s[|s| - 1]) then Strip(s[..|s| - 1])
    else s
  }

  /** The three substitutions. */
  function Collapse(s: string): string { CollapseNewlines(TrimAroundNewlines(CollapseBlanks(s))) }

  function CanonicalizeText(s: string): string { Strip(Collapse(FoldNewlines(s))) }

  // ------------------------------------------------------------ the same in one pass

  /** The white space since the last solid character. */
  datatype Gap = None | Blanks | Lines

  function Separator(g: Gap): string {
    match g
    case None => []
    case Blanks => [SPACE]
    case Lines => [NEWLINE]
  }

  function Wider(g: Gap, c: char): Gap { if g == Lines || IsLineEnd(c) then Lines else Blanks }

  /** One pass: each run of white space becomes a newline, if it ends a line, or a
      space, and none is left at either end. started tells whether there is text before. */
  function Squeeze(s: string, g: Gap, started: bool): string {
    if s == [] then []
    else if IsSpace(s[0]) then Squeeze(s[1..], Wider(g, s[0]), started)
    else (if started then Separator(g) else []) + [s[0]] + Squeeze(s[1..], None, true)
  }

  /** The same, keeping the separators at both ends. */
  function Separated(s: string, g: Gap): string {
    if s == [] then Separator(g)
    else if IsSpace(s[0]) then Separated(s[1..], Wider(g, s[0]))
    else Separator(g) + [s[0]] + Separated(s[1..], None)
  }

  // How Collapse treats the first characters of a text.

  lemma SolidHead(c: char, s: string)
    requires !IsSpace(c)
    ensures Collapse([c] + s) == [c] + Collapse(s)
  {
    hide CollapseBlanks, TrimAroundNewlines, CollapseNewlines;
    BlanksCons(c, s);
    TrimSolid(c, CollapseBlanks(s));
    LinesCons(c, TrimAroundNewlines(CollapseBlanks(s)));
  }

  lemma SolidBehindSpace(c: char, s: string)
    requires !IsSpace(c)
    ensures Collapse([SPACE, c] + s) == [SPACE, c] + Collapse(s)
  {
    hide TrimAroundNewlines, CollapseNewlines;
    var p := CollapseBlanks(s);
    assert ([SPACE, c] + s)[1..] == [c] + s;
    BlanksCons(c, s);
    assert CollapseBlanks([SPACE, c] + s) == [SPACE] + ([c] + p);
    hide CollapseBlanks;
    TrimSolid(c, p);
    LinesCons(c, TrimAroundNewlines(p));
    LinesCons(SPACE, [c] + TrimAroundNewlines(p));
  }

  lemma SolidBehindNewline(c: char, s: string)
    requires !IsSpace(c)
    ensures Collapse([NEWLINE, c] + s) == [NEWLINE, c] + Collapse(s)
  {
    hide CollapseBlanks, TrimAroundNewlines;
    var q := TrimAroundNewlines(CollapseBlanks(s));
    assert [NEWLINE, c] + s == [NEWLINE] + ([c] + s);
    BlanksCons(c, s);
    BlanksCons(NEWLINE, [c] + s);
    TrimSolid(c, CollapseBlanks(s));
    LinesCons(c, q);
    assert ([NEWLINE] + ([c] + q))[1..] == [c] + q;
  }

  lemma BlanksCons(c: char, s: string)
    requires !IsBlank(c)
    ensures CollapseBlanks([c] + s) == [c] + CollapseBlanks(s)
  {
    assert ([c] + s)[1..] == s;
  }

  lemma LinesCons(c: char, s: string)
    requires c != NEWLINE
    ensures CollapseNewlines([c] + s) == [c] + CollapseNewlines(s)
  {
    assert ([c] + s)[1..] == s;
  }

  lemma TrimSolid(c: char, s: string)
    requires c != NEWLINE && c != SPACE
    ensures TrimAroundNewlines([c] + s) == [c] + TrimAroundNewlines(s)
    ensures TrimAroundNewlines([SPACE] + ([c] + s)) == [SPACE] + ([c] + TrimAroundNewlines(s))
    ensures TrimAroundNewlines([NEWLINE] + ([c] + s)) == [NEWLINE] + ([c] + TrimAroundNewlines(s))
  {
    var t := [c] + s;
    assert t[1..] == s && ([SPACE] + t)[1..] == t && ([NEWLINE] + t)[1..] == t;
    assert SkipSpaces(t) == t && SkipSpaces([SPACE] + t) == t && SkipSpaces([NEWLINE] + t) == [NEWLINE] + t;
  }

  /** A newline after the head, or a space before it. */
  lemma TrimNewline(s: string)
    ensures TrimAroundNewlines([NEWLINE] + s) == [NEWLINE] + TrimAroundNewlines(SkipSpaces(s))
    ensures TrimAroundNewlines([SPACE] + ([NEWLINE] + s)) == TrimAroundNewlines([NEWLINE] + s)
    ensures TrimAroundNewlines([NEWLINE] + ([SPACE] + s)) == TrimAroundNewlines([NEWLINE] + s)
  {
    var t := [NEWLINE] + s;
    assert t[1..] == s && ([SPACE] + t)[1..] == t && ([SPACE] + s)[1..] == s;
    assert ([NEWLINE] + ([SPACE] + s))[1..] == [SPACE] + s;
    assert SkipSpaces(t) == t && SkipSpaces([SPACE] + t) == t && SkipSpaces([SPACE] + s) == SkipSpaces(s);
    assert SkipSpaces([NEWLINE] + ([SPACE] + s)) == [NEWLINE] + ([SPACE] + s);
  }

  lemma NewlineHead(s: string)
    ensures Collapse([SPACE, NEWLINE] + s) == Collapse([NEWLINE] + s)
    ensures Collapse([NEWLINE, NEWLINE] + s) == Collapse([NEWLINE] + s)
  {
    var p := CollapseBlanks(s);
    BlanksCons(NEWLINE, s);
    BlanksCons(NEWLINE, [NEWLINE] + s);
    assert [NEWLINE] + ([NEWLINE] + s) == [NEWLINE, NEWLINE] + s;
    assert ([SPACE, NEWLINE] + s)[1..] == [NEWLINE] + s;
    assert CollapseBlanks([SPACE, NEWLINE] + s) == [SPACE] + ([NEWLINE] + p);
    TrimNewline(p);
    TrimNewline([NEWLINE] + p);
    assert SkipSpaces([NEWLINE] + p) == [NEWLINE] + p;
    var q := TrimAroundNewlines(SkipSpaces(p));
    assert ([NEWLINE] + ([NEWLINE] + q))[1..] == [NEWLINE] + q;
  }

  lemma BlankHead(b: char, s: string)
    requires IsBlank(b)
    ensures Collapse([b] + s) == Collapse([SPACE] + s)
    ensures Collapse([SPACE, b] + s) == Collapse([SPACE] + s)
    ensures Collapse([NEWLINE, b] + s) == Collapse([NEWLINE] + s)
  {
    var p := CollapseBlanks(s);
    assert ([b] + s)[1..] == s && ([SPACE] + s)[1..] == s;
    assert CollapseBlanks([b] + s) == CollapseBlanks([SPACE] + s);
    assert ([SPACE, b] + s)[1..] == [b] + s;
    BlanksCons(NEWLINE, s);
    BlanksCons(NEWLINE, [b] + s);
    assert [NEWLINE] + ([b] + s) == [NEWLINE, b] + s;
    TrimNewline(p);
  }

  /** Collapse of a text without other line endings, read behind a gap. */
  lemma {:induction false} CollapseIsSeparated(s: string, g: Gap)
    requires forall c :: c in s && IsLineEnd(c) ==> c == NEWLINE
    ensures Collapse(Separator(g) + s) == Separated(s, g)
  {
    if s == [] {
      assert Separator(g) + s == Separator(g);
      GapAlone(g);
    } else {
      hide Collapse, IsSpace, IsLineEnd;
      var c, rest := s[0], s[1..];
      assert s == [c] + rest;
      assert Separator(g) + s == Separator(g) + [c] + rest;
      GapStep(c, rest, g);
      CollapseIsSeparated(rest, if IsSpace(c) then Wider(g, c) else None);
    }
  }

  lemma GapAlone(g: Gap)
    ensures Collapse(Separator(g)) == Separator(g)
  {
    assert [SPACE][1..] == [] && [NEWLINE][1..] == [];
    assert SkipSpaces([SPACE]) == SkipSpaces([]) == [] && SkipSpaces([NEWLINE]) == [NEWLINE];
    assert CollapseBlanks([SPACE]) == [SPACE] && CollapseBlanks([NEWLINE]) == [NEWLINE];
    assert TrimAroundNewlines([]) == [] && CollapseNewlines([]) == [];
    assert TrimAroundNewlines([SPACE]) == [SPACE] && TrimAroundNewlines([NEWLINE]) == [NEWLINE];
  }

  lemma GapStep(c: char, rest: string, g: Gap)
    requires IsLineEnd(c) ==> c == NEWLINE
    ensures Collapse(Separator(g) + [c] + rest) ==
            if IsSpace(c) then Collapse(Separator(Wider(g, c)) + rest) else Separator(g) + [c] + Collapse([] + rest)
  {
    hide Collapse;
    assert [] + [c] + rest == [c] + rest && [] + rest == rest;
    assert [SPACE] + [c] + rest == [SPACE, c] + rest && [NEWLINE] + [c] + rest == [NEWLINE, c] + rest;
    if !IsSpace(c) {
      SolidHead(c, rest);
      SolidBehindSpace(c, rest);
      SolidBehindNewline(c, rest);
      assert [SPACE] + [c] == [SPACE, c] && [NEWLINE] + [c] == [NEWLINE, c] && [] + [c] == [c];
    } else if c == NEWLINE {
      NewlineHead(rest);
    } else {
      BlankHead(c, rest);
    }
  }

  // Stripping the separators at both ends.

  ghost predicate AllSpace(s: string) { forall c :: c in s ==> IsSpace(c) }

  /** No white space at either end. */
  ghost predicate Bare(s: string) { s != [] ==> !IsSpace(s[0]) && !IsSpace(s[|s| - 1]) }

  lemma {:induction false} StripFrame(a: string, t: string, b: string)
    requires AllSpace(a) && AllSpace(b) && Bare(t)
    ensures Strip(a + t + b) == t
    decreases |a| + |b|
  {
    var s := a + t + b;
    if a != [] {
      assert s[0] == a[0] && s[1..] == a[1..] + t + b;
      StripFrame(a[1..], t, b);
    } else if b != [] && t == [] {
      assert s == b && b[0] in b && s[1..] == [] + t + b[1..];
      StripFrame([], t, b[1..]);
    } else if b != [] {
      assert s[0] == t[0] && s[|s| - 1] == b[|b| - 1] && s[..|s| - 1] == a + t + b[..|b| - 1];
      assert b[|b| - 1] in b;
      StripFrame(a, t, b[..|b| - 1]);
    } else {
      assert s == t;
    }
  }

  lemma {:induction false} SqueezeStarted(s: string, g: Gap) returns (tail: string)
    ensures Separated(s, g) == Squeeze(s, g, true) + tail && AllSpace(tail)
    ensures var r := Squeeze(s, g, true); r != [] ==> !IsSpace(r[|r| - 1])
  {
    if s == [] {
      tail := Separator(g);
    } else if IsSpace(s[0]) {
      tail := SqueezeStarted(s[1..], Wider(g, s[0]));
    } else {
      tail := SqueezeStarted(s[1..], None);
    }
  }

  lemma {:induction false} SqueezeFresh(s: string, g: Gap) returns (head: string, tail: string)
    ensures Separated(s, g) == head + Squeeze(s, None, false) + tail
    ensures AllSpace(head) && AllSpace(tail) && Bare(Squeeze(s, None, false))
  {
    if s == [] {
      head, tail := Separator(g), [];
    } else if IsSpace(s[0]) {
      head, tail := SqueezeFresh(s[1..], Wider(g, s[0]));
      FreshGap(s[1..], Wider(None, s[0]), None);
    } else {
      head := Separator(g);
      tail := SqueezeStarted(s[1..], None);
      assert Squeeze(s, None, false) == [s[0]] + Squeeze(s[1..], None, true);
      assert head + [s[0]] + Separated(s[1..], None) == head + ([s[0]] + Squeeze(s[1..], None, true)) + tail;
    }
  }

  /** Before the first solid character the gap does not matter. */
  lemma {:induction false} FreshGap(s: string, g: Gap, h: Gap)
    ensures Squeeze(s, g, false) == Squeeze(s, h, false)
  {
    if s != [] && IsSpace(s[0]) { FreshGap(s[1..], Wider(g, s[0]), Wider(h, s[0])); }
  }

  /** Folding first changes nothing for the one pass. */
  lemma {:induction false} FoldFirst(s: string, g: Gap, started: bool)
    ensures Squeeze(FoldNewlines(s), g, started) == Squeeze(s, g, started)
    ensures forall c :: c in FoldNewlines(s) && IsLineEnd(c) ==> c == NEWLINE
  {
    if s != [] {
      if s[0] == '\r' && |s| > 1 && s[1] == NEWLINE {
        var t := FoldNewlines(s[2..]);
        assert s[1..][1..] == s[2..] && ([NEWLINE] + t)[1..] == t;
        assert Squeeze(s, g, started) == Squeeze(s[1..], Lines, started) == Squeeze(s[2..], Lines, started);
        FoldFirst(s[2..], Lines, started);
      } else {
        var c := if IsLineEnd(s[0]) then NEWLINE else s[0];
        var t := FoldNewlines(s[1..]);
        assert ([c] + t)[1..] == t;
        FoldFirst(s[1..], if IsSpace(s[0]) then Wider(g, s[0]) else None, started || !IsSpace(s[0]));
      }
    }
  }

  /** The passes of the code together are the one pass. */
  lemma CanonicalIsOnePass(s: string)
    ensures CanonicalizeText(s) == Squeeze(s, None, false)
  {
    hide Squeeze, Separated, Strip, FoldNewlines, Collapse;
    var t := FoldNewlines(s);
    FoldFirst(s, None, false);
    CollapseIsSeparated(t, None);
    assert [] + t == t;
    var head, tail := SqueezeFresh(t, None);
    StripFrame(head, Squeeze(t, None, false), tail);
  }

  // ------------------------------------------------------------ what canonical text is

  lemma {:induction false} SqueezeTwice(s: string, g: Gap)
    ensures Squeeze(Squeeze(s, g, true), None, true) == Squeeze(s, g, true)
    ensures Squeeze(Squeeze(s, g, false), None, false) == Squeeze(s, g, false)
  {
    if s != [] {
      if IsSpace(s[0]) {
        SqueezeTwice(s[1..], Wider(g, s[0]));
      } else {
        var rest := Squeeze(s[1..], None, true);
        SqueezeTwice(s[1..], None);
        SolidAgain(g, s[0], rest);
      }
    }
  }

  lemma SolidAgain(g: Gap, c: char, rest: string)
    requires !IsSpace(c)
    ensures Squeeze([c] + rest, None, false) == [c] + Squeeze(rest, None, true)
    ensures Squeeze(Separator(g) + [c] + rest, None, true) == Separator(g) + [c] + Squeeze(rest, None, true)
  {
    var t := [c] + rest;
    assert t[1..] == rest;
    assert ([SPACE] + [c] + rest)[1..] == t && ([NEWLINE] + [c] + rest)[1..] == t && [] + [c] + rest == t;
  }

  /** Canonical text is its own canonical form. */
  lemma CanonicalTwice(s: string)
    ensures CanonicalizeText(CanonicalizeText(s)) == CanonicalizeText(s)
  {
    hide CanonicalizeText, Squeeze;
    CanonicalIsOnePass(s);
    CanonicalIsOnePass(CanonicalizeText(s));
    SqueezeTwice(s, None);
  }

  lemma {:induction false} SolidSqueezed(s: string, started: bool)
    requires forall c :: c in s ==> !IsSpace(c)
    ensures Squeeze(s, None, started) == s
  {
    if s != [] { SolidSqueezed(s[1..], true); }
  }

  /** Text without white space is canonical. */
  lemma SolidUnchanged(s: string)
    requires forall c :: c in s ==> !IsSpace(c)
    ensures CanonicalizeText(s) == s
  {
    hide CanonicalizeText, Squeeze;
    CanonicalIsOnePass(s);
    SolidSqueezed(s, false);
  }

  /** The gap behind a text. */
  function GapAfter(s: string, g: Gap): Gap {
    if s == [] then g else GapAfter(s[1..], if IsSpace(s[0]) then Wider(g, s[0]) else None)
  }

  function StartedAfter(s: string, started: bool): bool {
    if s == [] then started else StartedAfter(s[1..], started || !IsSpace(s[0]))
  }

  lemma {:induction false} SqueezeConcat(a: string, b: string, g: Gap, started: bool)
    ensures Squeeze(a + b, g, started) ==
            Squeeze(a, g, started) + Squeeze(b, GapAfter(a, g), StartedAfter(a, started))
  {
    if a == [] {
      assert a + b == b;
    } else {
      assert (a + b)[0] == a[0] && (a + b)[1..] == a[1..] + b;
      SqueezeConcat(a[1..], b, if IsSpace(a[0]) then Wider(g, a[0]) else None, started || !IsSpace(a[0]));
    }
  }

  lemma {:induction false} StartedMeans(s: string, g: Gap, started: bool)
    ensures StartedAfter(s, started) <==> started || Squeeze(s, g, false) != []
  {
    if s != [] { StartedMeans(s[1..], if IsSpace(s[0]) then Wider(g, s[0]) else None, started || !IsSpace(s[0])); }
  }

  /** Behind a line break only the canonical form of a text shows. */
  lemma {:induction false} BehindLines(s: string, started: bool)
    ensures Squeeze(s, Lines, started) ==
            if Squeeze(s, None, false) == [] then []
            else (if started then [NEWLINE] else []) + Squeeze(s, None, false)
  {
    if s != [] && IsSpace(s[0]) {
      BehindLines(s[1..], started);
      FreshGap(s[1..], Wider(None, s[0]), None);
    }
  }

  /** Two texts on lines of their own. */
  lemma TwoLines(a: string, b: string)
    ensures CanonicalizeText(a + [NEWLINE] + b) ==
            var x, y := CanonicalizeText(a), CanonicalizeText(b);
            if x == [] || y == [] then x + y else x + [NEWLINE] + y
  {
    hide CanonicalizeText, Squeeze;
    CanonicalIsOnePass(a + [NEWLINE] + b);
    CanonicalIsOnePass(a);
    CanonicalIsOnePass(b);
    var g, started := GapAfter(a, None), StartedAfter(a, false);
    assert a + [NEWLINE] + b == a + ([NEWLINE] + b);
    SqueezeConcat(a, [NEWLINE] + b, None, false);
    StartedMeans(a, None, false);
    NewlineFirst(b, g, started);
    BehindLines(b, started);
  }

  lemma NewlineFirst(b: string, g: Gap, started: bool)
    ensures Squeeze([NEWLINE] + b, g, started) == Squeeze(b, Lines, started)
  {
    assert ([NEWLINE] + b)[1..] == b;
  }

  /** Canonicalising both lines first makes no difference. */
  lemma LinesApart(a: string, b: string)
    ensures CanonicalizeText(CanonicalizeText(a) + [NEWLINE] + CanonicalizeText(b)) ==
            CanonicalizeText(a + [NEWLINE] + b)
  {
    hide CanonicalizeText;
    TwoLines(a, b);
    TwoLines(CanonicalizeText(a), CanonicalizeText(b));
    CanonicalTwice(a);
    CanonicalTwice(b);
  }

  /** Doubling a space anywhere does not show in the canonical text. */
  lemma DoubledSpace(x: string, y: string)
    ensures CanonicalizeText(x + [SPACE, SPACE] + y) == CanonicalizeText(x + [SPACE] + y)
  {
    hide CanonicalizeText, Squeeze;
    CanonicalIsOnePass(x + [SPACE, SPACE] + y);
    CanonicalIsOnePass(x + [SPACE] + y);
    var g, started := GapAfter(x, None), StartedAfter(x, false);
    assert x + [SPACE, SPACE] + y == x + ([SPACE, SPACE] + y) && x + [SPACE] + y == x + ([SPACE] + y);
    SqueezeConcat(x, [SPACE, SPACE] + y, None, false);
    SqueezeConcat(x, [SPACE] + y, None, false);
    SpacesFirst(y, g, started);
  }

  lemma SpacesFirst(y: string, g: Gap, started: bool)
    ensures Squeeze([SPACE, SPACE] + y, g, started) == Squeeze([SPACE] + y, g, started)
  {
    assert ([SPACE, SPACE] + y)[1..] == [SPACE] + y && ([SPACE] + y)[1..] == y;
  }

  lemma {:induction false} SqueezeShorter(s: string, g: Gap, started: bool)
    ensures |Squeeze(s, g, started)| <= |s| + if started && g != None then 1 else 0
  {
    if s != [] { SqueezeShorter(s[1..], if IsSpace(s[0]) then Wider(g, s[0]) else None, started || !IsSpace(s[0])); }
  }

  /** A text with an empty line in it is never canonical. */
  lemma EmptyLineFolded(x: string, y: string)
    ensures CanonicalizeText(x + [NEWLINE, NEWLINE] + y) == CanonicalizeText(x + [NEWLINE] + y)
    ensures CanonicalizeText(x + [NEWLINE, NEWLINE] + y) != x + [NEWLINE, NEWLINE] + y
  {
    hide CanonicalizeText, Squeeze;
    CanonicalIsOnePass(x + [NEWLINE, NEWLINE] + y);
    CanonicalIsOnePass(x + [NEWLINE] + y);
    var g, started := GapAfter(x, None), StartedAfter(x, false);
    assert x + [NEWLINE, NEWLINE] + y == x + ([NEWLINE] + ([NEWLINE] + y)) && x + [NEWLINE] + y == x + ([NEWLINE] + y);
    SqueezeConcat(x, [NEWLINE] + ([NEWLINE] + y), None, false);
    SqueezeConcat(x, [NEWLINE] + y, None, false);
    NewlineFirst([NEWLINE] + y, g, started);
    NewlineFirst(y, Lines, started);
    NewlineFirst(y, g, started);
    SqueezeShorter(x + [NEWLINE] + y, None, false);
  }

  // ------------------------------------------------------------ words and white space

  /** The white space and the line ends, one by one. */
  lemma SpaceTable(c: char)
    ensures IsSpace(c) <==>
            c in "\t\n\U{B}\U{C}\r\U{1C}\U{1D}\U{1E}\U{1F} \U{85}\U{A0}\U{1680}\U{2028}\U{2029}\U{202F}\U{205F}\U{3000}"
            || c in "\U{2000}\U{2001}\U{2002}\U{2003}\U{2004}\U{2005}\U{2006}\U{2007}\U{2008}\U{2009}\U{200A}"
    ensures IsLineEnd(c) <==> c in "\n\r\U{85}\U{2028}\U{2029}"
  {
  }

  ghost predicate Solid(s: string) { s != [] && forall c :: c in s ==> !IsSpace(c) }

  ghost predicate EndsLine(gap: string) { exists c :: c in gap && IsLineEnd(c) }

  lemma {:induction false} GapSqueezed(gap: string, rest: string, g: Gap, started: bool)
    requires AllSpace(gap)
    ensures Squeeze(gap + rest, g, started) ==
            Squeeze(rest, if gap == [] then g else if g == Lines || EndsLine(gap) then Lines else Blanks, started)
  {
    if gap == [] {
      assert gap + rest == rest;
    } else {
      assert (gap + rest)[1..] == gap[1..] + rest && gap[0] in gap;
      assert gap == [gap[0]] + gap[1..];
      GapSqueezed(gap[1..], rest, Wider(g, gap[0]), started);
      assert EndsLine(gap) <==> IsLineEnd(gap[0]) || EndsLine(gap[1..]);
    }
  }

  lemma {:induction false} WordSqueezed(word: string, rest: string, g: Gap, started: bool)
    requires Solid(word)
    ensures Squeeze(word + rest, g, started) ==
            (if started then Separator(g) else []) + word + Squeeze(rest, None, true)
  {
    hide IsSpace, IsLineEnd;
    var c, more := word[0], word[1..];
    assert c in word && word == [c] + more;
    assert (word + rest)[0] == c && (word + rest)[1..] == more + rest;
    if more == [] {
      assert more + rest == rest;
    } else {
      WordSqueezed(more, rest, None, true);
    }
  }

  /** Two words, whatever white space is before, between and behind them: one line break is
      left between them if the white space there ends a line, else one space, and nothing else. */
  lemma WordsApart(before: string, x: string, gap: string, y: string, behind: string)
    requires AllSpace(before) && AllSpace(gap) && AllSpace(behind) && gap != [] && Solid(x) && Solid(y)
    ensures CanonicalizeText(before + x + gap + y + behind) == x + [if EndsLine(gap) then '\n' else ' '] + y
  {
    hide CanonicalizeText, Squeeze, AllSpace, Solid, EndsLine;
    var s := before + x + gap + y + behind;
    CanonicalIsOnePass(s);
    var fromY := y + behind;
    var fromGap := gap + fromY;
    var fromX := x + fromGap;
    assert s == before + fromX;
    GapSqueezed(before, fromX, None, false);
    FreshGap(fromX, if before == [] then None else if EndsLine(before) then Lines else Blanks, None);
    WordSqueezed(x, fromGap, None, false);
    GapSqueezed(gap, fromY, None, true);
    var g := if EndsLine(gap) then Lines else Blanks;
    WordSqueezed(y, behind, g, true);
    GapSqueezed(behind, [], None, true);
    assert behind + [] == behind;
    NothingSqueezed();
    assert Separator(g) + y + [] == Separator(g) + y;
    assert [] + x + (Separator(g) + y) == x + Separator(g) + y;
  }

  lemma NothingSqueezed()
    ensures forall g, started :: Squeeze([], g, started) == []
  {
  }
}
