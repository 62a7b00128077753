/** HiddenReasoningRedactor of consultation_engine.py: an incremental redactor of
    nested think blocks that holds back at most a possible tag prefix. */
module Redactor {

  const OPEN_TAG := "<think>"
  const CLOSE_TAG := "</think>"
  const MAX_HOLD := 7

  /** str.lower on the characters that matter to a tag comparison: besides the
      ASCII capitals, only the Kelvin sign lowers to a tag character. */
  function Lower(c: char): char {
    if 'A' <= c <= 'Z' then (c as int + 32) as char
    else if c == '\U{212A}' then 'k'
    else c
  }

  /** _match_at position 0. */
  predicate Matches(data: string, tag: string) {
    |data| >= |tag| && forall i :: 0 <= i < |tag| ==> Lower(data[i]) == tag[i]
  }

  /** _is_prefix: fragment spells a nonempty beginning of the tag. */
  predicate BeginsTag(tag: string, fragment: string) {
    0 < |fragment| <= |tag| && forall i :: 0 <= i < |fragment| ==> Lower(fragment[i]) == tag[i]
  }

  /** _incomplete_tag_prefix_at: the rest might still become a tag. */
  predicate Undecided(data: string) {
    0 < |data| < 8 && (BeginsTag(OPEN_TAG, data) || BeginsTag(CLOSE_TAG, data))
  }

  // ------------------------------------------------------------ reference

  /** What is left of a complete text: everything outside nested blocks, without
      tags, and without a final fragment that begins an opening tag. */
  function Redact(text: string, depth: nat): string {
    if text == "" then ""
    else if Matches(text, OPEN_TAG) then Redact(text[7..], depth + 1)
    else if Matches(text, CLOSE_TAG) then Redact(text[8..], if depth > 0 then depth - 1 else 0)
    else if depth == 0 && |text| < 7 && BeginsTag(OPEN_TAG, text) then ""
    else (if depth == 0 then [text[0]] else "") + Redact(text[1..], depth)
  }

  datatype Streamed = Streamed(out: string, depth: nat, pending: string)

  /** One streaming pass: stops where the rest is undecided. */
  ghost function Stream(data: string, depth: nat): Streamed {
    if data == "" || (!Matches(data, OPEN_TAG) && !Matches(data, CLOSE_TAG) && Undecided(data)) then
      Streamed("", depth, data)
    else if Matches(data, OPEN_TAG) then Stream(data[7..], depth + 1)
    else if Matches(data, CLOSE_TAG) then Stream(data[8..], if depth > 0 then depth - 1 else 0)
    else
      var rest := Stream(data[1..], depth);
      Streamed((if depth == 0 then [data[0]] else "") + rest.out, rest.depth, rest.pending)
  }

  /** The depth after a complete text. */
  ghost function DepthAfter(text: string, depth: nat): nat {
    if text == "" then depth
    else if Matches(text, OPEN_TAG) then DepthAfter(text[7..], depth + 1)
    else if Matches(text, CLOSE_TAG) then DepthAfter(text[8..], if depth > 0 then depth - 1 else 0)
    else if depth == 0 && |text| < 7 && BeginsTag(OPEN_TAG, text) then depth
    else DepthAfter(text[1..], depth)
  }

  /** More text does not change what has already been decided. */
  lemma DecidedStays(x: string, y: string)
    requires x != "" && !Matches(x, OPEN_TAG) && !Matches(x, CLOSE_TAG) && !Undecided(x)
    ensures !Matches(x + y, OPEN_TAG) && !Matches(x + y, CLOSE_TAG) && !Undecided(x + y)
    ensures !(|x + y| < 7 && BeginsTag(OPEN_TAG, x + y))
  {
    assert forall i :: 0 <= i < |x| ==> (x + y)[i] == x[i];
  }

  lemma MatchStays(x: string, y: string, tag: string)
    requires Matches(x, tag)
    ensures Matches(x + y, tag) && (x + y)[|tag|..] == x[|tag|..] + y
  {
  }

  lemma OneTagOnly(x: string)
    requires Matches(x, CLOSE_TAG)
    ensures !Matches(x, OPEN_TAG)
  {
    assert Lower(x[1]) == CLOSE_TAG[1];
  }

  /** Whatever follows, the answer is what the pass has emitted and then the
      answer for the held text and the rest. */
  lemma {:induction false} StreamThenRest(x: string, d: nat, y: string)
    ensures var s := Stream(x, d); Redact(x + y, d) == s.out + Redact(s.pending + y, s.depth)
  {
    hide Matches, Undecided, BeginsTag;
    if x == "" || (!Matches(x, OPEN_TAG) && !Matches(x, CLOSE_TAG) && Undecided(x)) {
    } else if Matches(x, OPEN_TAG) {
      MatchStays(x, y, OPEN_TAG);
      StreamThenRest(x[7..], d + 1, y);
    } else if Matches(x, CLOSE_TAG) {
      MatchStays(x, y, CLOSE_TAG);
      OneTagOnly(x + y);
      StreamThenRest(x[8..], if d > 0 then d - 1 else 0, y);
    } else {
      DecidedStays(x, y);
      assert (x + y)[1..] == x[1..] + y;
      StreamThenRest(x[1..], d, y);
    }
  }

  /** Streaming in two pieces is streaming in one. */
  lemma {:induction false} StreamTwice(x: string, d: nat, y: string)
    ensures var s := Stream(x, d); var t := Stream(s.pending + y, s.depth);
            Stream(x + y, d) == Streamed(s.out + t.out, t.depth, t.pending)
  {
    hide Matches, Undecided, BeginsTag;
    if x == "" || (!Matches(x, OPEN_TAG) && !Matches(x, CLOSE_TAG) && Undecided(x)) {
    } else if Matches(x, OPEN_TAG) {
      MatchStays(x, y, OPEN_TAG);
      StreamTwice(x[7..], d + 1, y);
    } else if Matches(x, CLOSE_TAG) {
      MatchStays(x, y, CLOSE_TAG);
      OneTagOnly(x + y);
      StreamTwice(x[8..], if d > 0 then d - 1 else 0, y);
    } else {
      DecidedStays(x, y);
      assert (x + y)[1..] == x[1..] + y;
      StreamTwice(x[1..], d, y);
    }
  }

  /** What is held back is empty or a tag prefix of at most seven characters. */
  lemma {:induction false} HoldIsTagPrefix(x: string, d: nat)
    ensures var p := Stream(x, d).pending; p == "" || (Undecided(p) && |p| <= MAX_HOLD)
  {
    if x == "" || (!Matches(x, OPEN_TAG) && !Matches(x, CLOSE_TAG) && Undecided(x)) {
    } else if Matches(x, OPEN_TAG) {
      HoldIsTagPrefix(x[7..], d + 1);
    } else if Matches(x, CLOSE_TAG) {
      HoldIsTagPrefix(x[8..], if d > 0 then d - 1 else 0);
    } else {
      HoldIsTagPrefix(x[1..], d);
    }
  }

  lemma {:induction false} RedactNoLonger(x: string, d: nat)
    ensures |Redact(x, d)| <= |x|
  {
    if x == "" {
    } else if Matches(x, OPEN_TAG) {
      RedactNoLonger(x[7..], d + 1);
    } else if Matches(x, CLOSE_TAG) {
      RedactNoLonger(x[8..], if d > 0 then d - 1 else 0);
    } else {
      RedactNoLonger(x[1..], d);
    }
  }

  // ------------------------------------------------------------ the class

  class HiddenReasoningRedactor {
    var depth: nat
    var pending: string
    var visible: seq<string>
    ghost var fed: string

    /** Whatever is fed next, the answer will be the visible text followed by
        the answer for the held text and the rest. */
    ghost predicate Valid()
      reads this
    {
      && Stream(fed, 0) == Streamed(Join(visible), depth, pending)
    }

    constructor ()
      ensures Valid() && fed == "" && visible == []
    {
      depth, pending, visible, fed := 0, "", [], "";
    }

    /** _process while streaming. */
    method ProcessStreaming(incoming: string) returns (chunk: string)
      modifies `depth, `pending
      ensures Stream(old(pending) + incoming, old(depth)) == Streamed(chunk, depth, pending)
    {
      hide Stream, Redact, DepthAfter, Matches, Undecided, BeginsTag;
      var data := pending + incoming;
      pending := "";
      chunk := "";
      var i := 0;
      assert data[0..] == data;
      while i < |data|
        invariant 0 <= i <= |data| && pending == ""
        invariant var rest := Stream(data[i..], depth);
                  Stream(data, old(depth)) == Streamed(chunk + rest.out, rest.depth, rest.pending)
      {
        var rest := data[i..];
        StreamStep(data, i, depth);
        if data[i] == '<' {
          if Matches(rest, OPEN_TAG) {
            depth := depth + 1;
            i := i + 7;
            continue;
          }
          if Matches(rest, CLOSE_TAG) {
            if depth > 0 { depth := depth - 1; }
            i := i + 8;
            continue;
          }
          if Undecided(rest) {
            pending := rest;
            return;
          }
        }
        if depth == 0 { chunk := chunk + [data[i]]; }
        i := i + 1;
      }
      AtEnd(depth);
      assert data[i..] == "";
    }

    /** _process when finalizing: nothing is held, a trailing fragment of an
        opening tag is dropped. */
    method ProcessFinal(incoming: string) returns (chunk: string)
      modifies `depth, `pending
      ensures chunk == Redact(old(pending) + incoming, old(depth)) && pending == ""
      ensures depth == DepthAfter(old(pending) + incoming, old(depth))
    {
      hide Stream, Redact, DepthAfter, Matches, Undecided, BeginsTag;
      var data := pending + incoming;
      pending := "";
      chunk := "";
      var i := 0;
      assert data[0..] == data;
      while i < |data|
        invariant 0 <= i <= |data| && pending == ""
        invariant Redact(data, old(depth)) == chunk + Redact(data[i..], depth)
        invariant DepthAfter(data, old(depth)) == DepthAfter(data[i..], depth)
      {
        var rest := data[i..];
        RedactStep(data, i, depth);
        if data[i] == '<' {
          if Matches(rest, OPEN_TAG) {
            depth := depth + 1;
            i := i + 7;
            continue;
          }
          if Matches(rest, CLOSE_TAG) {
            if depth > 0 { depth := depth - 1; }
            i := i + 8;
            continue;
          }
          if depth == 0 && |rest| < 7 && BeginsTag(OPEN_TAG, rest) { return; }
        }
        if depth == 0 { chunk := chunk + [data[i]]; }
        i := i + 1;
      }
      AtEnd(depth);
      assert data[i..] == "";
    }

    static lemma AtEnd(d: nat)
      ensures Stream("", d) == Streamed("", d, "") && Redact("", d) == "" && DepthAfter("", d) == d
    {
    }

    /** The four cases of the streaming loop. */
    static lemma StreamStep(data: string, i: nat, d: nat)
      requires i < |data|
      ensures var rest := data[i..];
              && (Matches(rest, OPEN_TAG) ==> i + 7 <= |data| && Stream(rest, d) == Stream(data[i + 7..], d + 1))
              && (Matches(rest, CLOSE_TAG) ==>
                    i + 8 <= |data| && Stream(rest, d) == Stream(data[i + 8..], if d > 0 then d - 1 else 0))
              && (!Matches(rest, OPEN_TAG) && !Matches(rest, CLOSE_TAG) && Undecided(rest) ==>
                    Stream(rest, d) == Streamed("", d, rest))
              && (!Matches(rest, OPEN_TAG) && !Matches(rest, CLOSE_TAG) && !Undecided(rest) ==>
                    var s := Stream(data[i + 1..], d);
                    Stream(rest, d) == Streamed((if d == 0 then [data[i]] else "") + s.out, s.depth, s.pending))
              && (data[i] != '<' ==> !Matches(rest, OPEN_TAG) && !Matches(rest, CLOSE_TAG) && !Undecided(rest))
    {
      RestOf(data, i);
      NoTagHere(data[i..]);
      hide Matches, Undecided, BeginsTag;
    }

    /** The four cases of the finalizing loop. */
    static lemma RedactStep(data: string, i: nat, d: nat)
      requires i < |data|
      ensures var rest := data[i..];
              var drop := d == 0 && |rest| < 7 && BeginsTag(OPEN_TAG, rest);
              && (Matches(rest, OPEN_TAG) ==>
                    i + 7 <= |data| && Redact(rest, d) == Redact(data[i + 7..], d + 1)
                    && DepthAfter(rest, d) == DepthAfter(data[i + 7..], d + 1))
              && (Matches(rest, CLOSE_TAG) ==>
                    var e := if d > 0 then d - 1 else 0;
                    i + 8 <= |data| && Redact(rest, d) == Redact(data[i + 8..], e)
                    && DepthAfter(rest, d) == DepthAfter(data[i + 8..], e))
              && (!Matches(rest, OPEN_TAG) && !Matches(rest, CLOSE_TAG) && drop ==>
                    Redact(rest, d) == "" && DepthAfter(rest, d) == d)
              && (!Matches(rest, OPEN_TAG) && !Matches(rest, CLOSE_TAG) && !drop ==>
                    && Redact(rest, d) == (if d == 0 then [data[i]] else "") + Redact(data[i + 1..], d)
                    && DepthAfter(rest, d) == DepthAfter(data[i + 1..], d))
              && (data[i] != '<' ==>
                  !Matches(rest, OPEN_TAG) && !Matches(rest, CLOSE_TAG) && !BeginsTag(OPEN_TAG, rest))
    {
      RestOf(data, i);
      NoTagHere(data[i..]);
      hide Matches, Undecided, BeginsTag;
    }

    static lemma RestOf(data: string, i: nat)
      requires i < |data|
      ensures data[i..] != "" && data[i..][0] == data[i] && data[i..][1..] == data[i + 1..]
      ensures Matches(data[i..], OPEN_TAG) ==> i + 7 <= |data| && data[i..][7..] == data[i + 7..]
      ensures Matches(data[i..], CLOSE_TAG) ==>
                i + 8 <= |data| && data[i..][8..] == data[i + 8..] && !Matches(data[i..], OPEN_TAG)
    {
      if Matches(data[i..], CLOSE_TAG) {
        OneTagOnly(data[i..]);
      }
    }

    static lemma NoTagHere(rest: string)
      ensures rest != "" && rest[0] != '<' ==>
                !Matches(rest, OPEN_TAG) && !Matches(rest, CLOSE_TAG) && !Undecided(rest) && !BeginsTag(OPEN_TAG, rest)
    {
      if rest != "" && rest[0] != '<' {
        assert Lower(rest[0]) != '<';
      }
    }

    method Feed(piece: string) returns (delta: string)
      requires Valid()
      modifies this
      ensures Valid() && fed == old(fed) + piece
      ensures Join(visible) == Join(old(visible)) + delta
      ensures pending == "" || (Undecided(pending) && |pending| <= MAX_HOLD)
      ensures forall more :: Join(visible) <= Redact(fed + more, 0)
    {
      StreamTwice(fed, 0, piece);
      delta := ProcessStreaming(piece);
      if delta != "" { visible := visible + [delta]; }
      fed := fed + piece;
      HoldIsTagPrefix(fed, 0);
      forall more ensures Join(visible) <= Redact(fed + more, 0) {
        StreamThenRest(fed, 0, more);
      }
    }

    /** The answer depends only on the text fed, and exceeds what was streamed
        by at most seven characters. */
    method Finalize() returns (answer: string)
      requires Valid()
      modifies this
      ensures answer == Redact(fed, 0) && fed == old(fed) && pending == ""
      ensures Join(old(visible)) <= answer && |answer| <= |Join(old(visible))| + MAX_HOLD
      ensures Join(visible) == answer
    {
      StreamThenRest(fed, 0, "");
      assert fed + "" == fed;
      HoldIsTagPrefix(fed, 0);
      RedactNoLonger(pending, depth);
      assert pending + "" == pending;
      var delta := ProcessFinal("");
      if delta != "" { visible := visible + [delta]; }
      answer := Join(visible);
    }

    /** redact_full. */
    static method RedactFull(raw: string) returns (answer: string)
      ensures answer == Redact(raw, 0)
    {
      var inst := new HiddenReasoningRedactor();
      if raw != "" {
        var _ := inst.Feed(raw);
        assert "" + raw == raw;
      }
      answer := inst.Finalize();
    }
  }

  function Join(pieces: seq<string>): string {
    if pieces == [] then "" else Join(pieces[..|pieces| - 1]) + pieces[|pieces| - 1]
  }

  /** Every piece is there, in its place. */
  lemma {:induction false} JoinedParts(pieces: seq<string>, i: nat)
    requires i < |pieces|
    ensures Join(pieces) == Join(pieces[..i]) + pieces[i] + Join(pieces[i + 1..]) && Join([]) == ""
  {
    var n := |pieces| - 1;
    if i == n {
      assert pieces[i + 1..] == [];
      assert Join(pieces[..i]) + pieces[i] + "" == Join(pieces[..i]) + pieces[i];
    } else {
      JoinedParts(pieces[..n], i);
      assert pieces[..n][..i] == pieces[..i] && pieces[..n][i] == pieces[i];
      assert pieces[i + 1..][..n - i - 1] == pieces[..n][i + 1..];
      var a, b, c, d := Join(pieces[..i]), pieces[i], Join(pieces[..n][i + 1..]), pieces[n];
      assert Join(pieces[i + 1..]) == c + d;
      assert (a + b + c) + d == a + b + (c + d);
    }
  }

  /** _generate_redacted: with a token callback the pieces go through the
      redactor one by one, without one the raw answer goes through at once;
      the answers are the same however the text was cut. */
  method GenerateRedacted(pieces: seq<string>, streaming: bool) returns (answer: string, tokens: seq<string>)
    ensures answer == Redact(Join(pieces), 0)
    ensures Join(tokens) <= answer
    ensures streaming ==> |answer| <= |Join(tokens)| + MAX_HOLD
  {
    tokens := [];
    if !streaming {
      answer := HiddenReasoningRedactor.RedactFull(Join(pieces));
      return;
    }
    var redactor := new HiddenReasoningRedactor();
    var i := 0;
    while i < |pieces|
      invariant 0 <= i <= |pieces| && redactor.Valid() && fresh(redactor)
      invariant redactor.fed == Join(pieces[..i]) && Join(tokens) == Join(redactor.visible)
    {
      assert pieces[..i + 1][..i] == pieces[..i];
      var delta := redactor.Feed(pieces[i]);
      if delta != "" { tokens := tokens + [delta]; }
      i := i + 1;
    }
    assert pieces[..i] == pieces;
    answer := redactor.Finalize();
  }

  // ------------------------------------------------------------ what the reference means

  /** Text without a '<' is passed through outside a block and dropped inside one. */
  lemma {:induction false} PlainText(x: string, d: nat, y: string)
    requires '<' !in x
    ensures Redact(x + y, d) == (if d == 0 then x else "") + Redact(y, d)
  {
    if x == "" {
      assert x + y == y;
    } else {
      var text := x + y;
      assert text[0] == x[0] && x[0] in x;
      HiddenReasoningRedactor.NoTagHere(text);
      assert text[1..] == x[1..] + y;
      PlainText(x[1..], d, y);
    }
  }

  /** Well-nested hidden text: plain runs and complete blocks. */
  datatype Nested = Plain(text: string, rest: Nested) | Block(inner: Nested, rest: Nested) | End

  ghost function Spell(n: Nested): string {
    match n
    case End => ""
    case Plain(text, rest) => text + Spell(rest)
    case Block(inner, rest) => OPEN_TAG + Spell(inner) + CLOSE_TAG + Spell(rest)
  }

  ghost predicate NoAngles(n: Nested) {
    match n
    case End => true
    case Plain(text, rest) => '<' !in text && NoAngles(rest)
    case Block(inner, rest) => NoAngles(inner) && NoAngles(rest)
  }

  /** The plain runs at the top level. */
  ghost function Outside(n: Nested): string {
    match n
    case End => ""
    case Plain(text, rest) => text + Outside(rest)
    case Block(_, rest) => Outside(rest)
  }

  /** Exactly the text outside all blocks survives, at any nesting depth. */
  lemma {:induction false} NestedRedacted(n: Nested, d: nat, y: string)
    requires NoAngles(n)
    ensures Redact(Spell(n) + y, d) == (if d == 0 then Outside(n) else "") + Redact(y, d)
    decreases n
  {
    hide Redact;
    match n
    case End =>
      assert Spell(n) + y == y;
    case Plain(text, rest) =>
      assert Spell(n) + y == text + (Spell(rest) + y);
      PlainText(text, d, Spell(rest) + y);
      NestedRedacted(rest, d, y);
    case Block(inner, rest) =>
      var after := CLOSE_TAG + (Spell(rest) + y);
      assert Spell(n) + y == OPEN_TAG + (Spell(inner) + after);
      EnterBlock(Spell(inner) + after, d);
      NestedRedacted(inner, d + 1, after);
      LeaveBlock(Spell(rest) + y, d);
      NestedRedacted(rest, d, y);
  }

  lemma EnterBlock(body: string, d: nat)
    ensures Redact(OPEN_TAG + body, d) == Redact(body, d + 1)
  {
    TagMatches(OPEN_TAG, body);
    hide Matches;
    assert (OPEN_TAG + body)[7..] == body;
  }

  lemma LeaveBlock(y: string, d: nat)
    ensures Redact(CLOSE_TAG + y, d + 1) == Redact(y, d)
  {
    TagMatches(CLOSE_TAG, y);
    OneTagOnly(CLOSE_TAG + y);
    hide Matches;
    assert (CLOSE_TAG + y)[8..] == y;
  }

  lemma TagMatches(tag: string, x: string)
    requires tag == OPEN_TAG || tag == CLOSE_TAG
    ensures Matches(tag + x, tag)
  {
    assert forall i :: 0 <= i < |tag| ==> (tag + x)[i] == tag[i] && Lower(tag[i]) == tag[i];
  }

  /** text spells a word, each letter small or capital. */
  ghost predicate SpelledAs(text: string, small: string, capital: string) {
    |text| == |small| == |capital| && forall i :: 0 <= i < |text| ==> text[i] == small[i] || text[i] == capital[i]
  }

  /** A block whose tags are spelled in any mixture of small letters and capitals is gone with
      its tags, and everything around it stays as it is. */
  lemma AnyCaseRedacted(b: string, o: string, x: string, c: string, y: string)
    requires SpelledAs(o, "<think>", "<THINK>") && SpelledAs(c, "</think>", "</THINK>")
    requires '<' !in b && '<' !in x && '<' !in y
    ensures Redact(b + o + x + c + y, 0) == b + y
  {
    hide Redact, SpelledAs;
    var rest := o + (x + (c + y));
    assert b + o + x + c + y == b + rest;
    PlainText(b, 0, rest);
    AnyCaseOpens(o, x + (c + y));
    PlainText(x, 1, c + y);
    assert "" + Redact(c + y, 1) == Redact(c + y, 1);
    AnyCaseCloses(c, y);
    PlainText(y, 0, "");
    NothingLeft();
    assert y + "" == y;
  }

  lemma AnyCaseOpens(o: string, rest: string)
    requires SpelledAs(o, "<think>", "<THINK>")
    ensures Redact(o + rest, 0) == Redact(rest, 1)
  {
    var text := o + rest;
    forall i | 0 <= i < 7 ensures Lower(text[i]) == OPEN_TAG[i] {
      assert text[i] == o[i];
    }
    assert text[7..] == rest;
  }

  lemma AnyCaseCloses(c: string, rest: string)
    requires SpelledAs(c, "</think>", "</THINK>")
    ensures Redact(c + rest, 1) == Redact(rest, 0)
  {
    var text := c + rest;
    forall i | 0 <= i < 8 ensures Lower(text[i]) == CLOSE_TAG[i] {
      assert text[i] == c[i];
    }
    OneTagOnly(text);
    assert text[8..] == rest;
  }

  /** A closing tag without a block is dropped alone; an opening one without an end hides the rest. */
  lemma StrayTags(b: string, y: string)
    requires '<' !in b && '<' !in y
    ensures Redact(b + "</think>" + y, 0) == b + y
    ensures Redact(b + "<think>" + y, 0) == b
  {
    hide Redact;
    assert b + "</think>" + y == b + (CLOSE_TAG + y) && b + "<think>" + y == b + (OPEN_TAG + y);
    PlainText(b, 0, CLOSE_TAG + y);
    PlainText(b, 0, OPEN_TAG + y);
    StrayClose(y);
    EnterBlock(y, 0);
    PlainText(y, 0, "");
    PlainText(y, 1, "");
    NothingLeft();
    NothingHidden();
    assert y + "" == y && b + "" == b;
  }

  lemma StrayClose(y: string)
    ensures Redact(CLOSE_TAG + y, 0) == Redact(y, 0)
  {
    TagMatches(CLOSE_TAG, y);
    OneTagOnly(CLOSE_TAG + y);
    hide Matches;
    assert (CLOSE_TAG + y)[8..] == y;
  }

  lemma NothingHidden()
    ensures Redact("", 1) == ""
  {
  }

  /** At the very end a beginning of an opening tag is dropped, that of a closing tag is not. */
  lemma UnfinishedTag(b: string, n: nat)
    requires '<' !in b && 0 < n < 7
    ensures Redact(b + "<think>"[..n], 0) == b
    ensures n > 1 ==> Redact(b + "</think>"[..n], 0) == b + "</think>"[..n]
  {
    hide Redact;
    PlainText(b, 0, "<think>"[..n]);
    PlainText(b, 0, "</think>"[..n]);
    DroppedBeginning(n);
    if n > 1 { KeptBeginning(n); }
    assert b + "" == b;
  }

  lemma DroppedBeginning(n: nat)
    requires 0 < n < 7
    ensures Redact("<think>"[..n], 0) == ""
  {
    var text := "<think>"[..n];
    assert forall i :: 0 <= i < n ==> text[i] == OPEN_TAG[i] && Lower(text[i]) == OPEN_TAG[i];
  }

  lemma KeptBeginning(n: nat)
    requires 1 < n < 8
    ensures Redact("</think>"[..n], 0) == "</think>"[..n]
  {
    var text := "</think>"[..n];
    assert text[1] == '/' && Lower(text[1]) != OPEN_TAG[1];
    var rest := text[1..];
    assert '<' !in rest by { assert forall i :: 1 <= i < 8 ==> "</think>"[i] != '<'; }
    PlainText(rest, 0, "");
    assert rest + "" == rest;
    assert text == [text[0]] + rest;
  }

  lemma NothingLeft()
    ensures Redact("", 0) == ""
  {
  }
}
