/** Where the pieces of a compiled context lie: stated on the text itself, so that the
    formatters and joiners of session_memory.py are known by what they write. */
module ContextText {
  import opened Common
  import opened ContextSelection
  import opened ContextAssembly

  /** piece stands in text from p on. */
  ghost predicate At(text: string, p: int, piece: string) {
    0 <= p && p + |piece| <= |text| && text[p..p + |piece|] == piece
  }

  lemma AtInside(outer: string, p: int, text: string, q: int, piece: string)
    requires At(outer, p, text) && At(text, q, piece)
    ensures At(outer, p + q, piece)
  {
    forall i | 0 <= i < |piece| ensures outer[p + q + i] == piece[i] {
      assert outer[p..p + |text|][q + i] == text[q + i];
      assert text[q..q + |piece|][i] == piece[i];
    }
  }

  lemma AtEnd(a: string, b: string)
    ensures At(a + b, |a|, b) && At(a + b, 0, a)
  {
  }

  // ------------------------------------------------------------ joined parts

  /** text is the parts one after the other, the separator between any two, and nothing else. */
  ghost predicate Placed(text: string, parts: seq<string>, separator: string, at: seq<int>) {
    && |at| == |parts|
    && (forall i :: 0 <= i < |parts| ==> At(text, at[i], parts[i]))
    && (forall i, j | 0 <= i < j < |parts| ::
          j == i + 1 ==> at[j] == at[i] + |parts[i]| + |separator| && At(text, at[i] + |parts[i]|, separator))
    && if parts == [] then text == "" else at[0] == 0 && at[|at| - 1] + |parts[|parts| - 1]| == |text|
  }

  lemma {:induction false} JoinPlaced(parts: seq<string>, separator: string) returns (at: seq<int>)
    ensures Placed(Join(parts, separator), parts, separator, at)
  {
    if parts == [] {
      at := [];
    } else if |parts| == 1 {
      at := [0];
    } else {
      var n := |parts| - 1;
      var head := JoinPlaced(parts[..n], separator);
      at := PlaceOneMore(Join(parts[..n], separator), parts, separator, head);
    }
  }

  lemma PlaceOneMore(init: string, parts: seq<string>, separator: string, head: seq<int>) returns (at: seq<int>)
    requires |parts| > 1 && Placed(init, parts[..|parts| - 1], separator, head)
    ensures Placed(init + separator + parts[|parts| - 1], parts, separator, at)
  {
    hide At;
    var n := |parts| - 1;
    var last := parts[n];
    var text := init + separator + last;
    assert text == init + (separator + last);
    assert |text| == |init| + |separator| + |last|;
    at := head + [|init| + |separator|];
    assert at[0] == head[0] == 0;
    AtEnd(init, separator + last);
    AtEnd(init + separator, last);
    AtEnd(separator, last);
    AtInside(text, |init|, separator + last, 0, separator);
    forall i | 0 <= i < |parts| ensures At(text, at[i], parts[i]) {
      if i < n {
        assert parts[..n][i] == parts[i];
        AtInside(text, 0, init, head[i], parts[i]);
      }
    }
    forall i, j | 0 <= i < j < |parts| && j == i + 1
      ensures at[j] == at[i] + |parts[i]| + |separator| && At(text, at[i] + |parts[i]|, separator)
    {
      assert parts[..n][i] == parts[i];
      if j < n {
        assert parts[..n][i] == parts[i];
        assert head[j] == head[i] + |parts[..n][i]| + |separator|;
        AtInside(text, 0, init, head[i] + |parts[i]|, separator);
      }
    }
  }

  // ------------------------------------------------------------ a transcript

  /** The i-th turn stands from its cut on, its id, its index, its alias and its whole text,
      and behind an empty line the next cut. */
  ghost predicate TurnAt(text: string, turns: seq<Turn>, at: seq<int>, i: int)
    requires 0 <= i < |turns| && |at| == |turns| + 1
  {
    var t := turns[i];
    var shown := "[turn_id: " + t.id + " turn_index: " + Decimal(t.index) + " speaker_alias: " + t.alias + "]\n"
                 + t.text;
    && At(text, at[i], shown) && at[i + 1] == at[i] + |shown| + 2
    && (i > 0 ==> At(text, at[i] - 2, "\n\n"))
  }

  /** Behind the heading the turns stand in order. */
  ghost predicate TranscriptAt(text: string, turns: seq<Turn>, at: seq<int>) {
    && |at| == |turns| + 1 && At(text, at[0] - 20, "# Recent transcript\n")
    && forall i :: 0 <= i < |turns| ==> TurnAt(text, turns, at, i)
  }

  lemma BlockText(t: Turn)
    ensures FormatTurnBlock(t) ==
            "[turn_id: " + t.id + " turn_index: " + Decimal(t.index) + " speaker_alias: " + t.alias + "]\n" + t.text
  {
  }

  lemma BlockSize(t: Turn)
    ensures |FormatTurnBlock(t)| ==
            |"[turn_id: " + t.id + " turn_index: " + Decimal(t.index) + " speaker_alias: " + t.alias + "]\n" + t.text|
  {
    BlockText(t);
  }

  /** The cuts of a placed list, in a longer text from p on. */
  function CutsFrom(at: seq<int>, p: int, end: int): seq<int> {
    seq(|at| + 1, i requires 0 <= i <= |at| => p + if i < |at| then at[i] else end)
  }

  lemma PlacedStep(text: string, parts: seq<string>, separator: string, at: seq<int>, i: nat)
    requires Placed(text, parts, separator, at) && i < |parts|
    ensures |at| == |parts| && at[0] == 0 && At(text, at[i], parts[i])
    ensures var cuts := CutsFrom(at, 0, |text| + |separator|); cuts[i + 1] == at[i] + |parts[i]| + |separator|
    ensures i > 0 ==> At(text, at[i] - |separator|, separator)
  {
    if i > 0 {
      var j := i - 1;
      assert at[i] == at[j] + |parts[j]| + |separator|;
    }
  }

  lemma BlocksShown(turns: seq<Turn>) returns (at: seq<int>)
    requires turns != []
    ensures var text := "# Recent transcript" + "\n" + Join(Blocks(turns), SEPARATOR);
            TranscriptAt(text, turns, at) && at[0] == 20 && at[|turns|] - 2 == |text|
  {
    hide FormatTurnBlock, Join, At, Placed;
    var parts := Blocks(turns);
    var body := Join(parts, SEPARATOR);
    var inner := JoinPlaced(parts, SEPARATOR);
    var text := "# Recent transcript" + "\n" + body;
    AtEnd("# Recent transcript" + "\n", body);
    assert "# Recent transcript" + "\n" == "# Recent transcript\n";
    PlacedStep(body, parts, SEPARATOR, inner, 0);
    at := CutsFrom(inner, 20, |body| + 2);
    forall i | 0 <= i < |turns| ensures TurnAt(text, turns, at, i) {
      PlacedStep(body, parts, SEPARATOR, inner, i);
      BlockText(turns[i]);
      AtInside(text, 20, body, inner[i], parts[i]);
      if i > 0 { AtInside(text, 20, body, inner[i] - 2, SEPARATOR); }
    }
  }

  function Moved(at: seq<int>, p: int): seq<int> { seq(|at|, i requires 0 <= i < |at| => p + at[i]) }

  lemma TranscriptMoves(outer: string, p: int, text: string, turns: seq<Turn>, at: seq<int>)
    requires At(outer, p, text) && TranscriptAt(text, turns, at)
    ensures TranscriptAt(outer, turns, Moved(at, p))
  {
    hide At, FormatTurnBlock;
    AtInside(outer, p, text, at[0] - 20, "# Recent transcript\n");
    forall i | 0 <= i < |turns| ensures TurnAt(outer, turns, Moved(at, p), i) {
      var t := turns[i];
      assert TurnAt(text, turns, at, i);
      AtInside(outer, p, text, at[i],
               "[turn_id: " + t.id + " turn_index: " + Decimal(t.index) + " speaker_alias: " + t.alias + "]\n"
               + t.text);
      if i > 0 { AtInside(outer, p, text, at[i] - 2, "\n\n"); }
    }
  }

  // ------------------------------------------------------------ a list of atoms

  /** The i-th atom stands from its cut on, its kind, its text and its quote, and behind a
      line break the next cut. */
  ghost predicate AtomAt(text: string, atoms: seq<Atom>, at: seq<int>, i: int)
    requires 0 <= i < |atoms| && |at| == |atoms| + 1
  {
    var a := atoms[i];
    var shown := "- (" + a.kind + ") " + a.canonical + " [" + a.quote + "]";
    && At(text, at[i], shown) && at[i + 1] == at[i] + |shown| + 1
    && (i > 0 ==> At(text, at[i] - 1, "\n"))
  }

  /** Behind the heading the atoms stand in order, each on a line of its own. */
  ghost predicate AtomsAt(text: string, header: string, atoms: seq<Atom>, at: seq<int>) {
    && |at| == |atoms| + 1 && At(text, at[0] - |header| - 1, header + "\n")
    && forall i :: 0 <= i < |atoms| ==> AtomAt(text, atoms, at, i)
  }

  lemma LineText(a: Atom)
    ensures FormatAtomLine(a) == "- (" + a.kind + ") " + a.canonical + " [" + a.quote + "]"
  {
  }

  lemma LinesShown(header: string, atoms: seq<Atom>) returns (at: seq<int>)
    requires atoms != []
    ensures var text := header + "\n" + Join(Lines(atoms), "\n");
            AtomsAt(text, header, atoms, at) && at[0] == |header| + 1 && at[|atoms|] - 1 == |text|
  {
    hide FormatAtomLine, Join, At;
    var parts := Lines(atoms);
    var body := Join(parts, "\n");
    var inner := JoinPlaced(parts, "\n");
    var text, p := header + "\n" + body, |header| + 1;
    AtEnd(header + "\n", body);
    at := CutsFrom(inner, p, |body| + 1);
    forall i | 0 <= i < |atoms| ensures AtomAt(text, atoms, at, i) {
      PlacedStep(body, parts, "\n", inner, i);
      LineText(atoms[i]);
      AtInside(text, p, body, inner[i], parts[i]);
      if i > 0 { AtInside(text, p, body, inner[i] - 1, "\n"); }
    }
  }

  lemma AtomsMove(outer: string, p: int, text: string, header: string, atoms: seq<Atom>, at: seq<int>)
    requires At(outer, p, text) && AtomsAt(text, header, atoms, at)
    ensures AtomsAt(outer, header, atoms, Moved(at, p))
  {
    hide At, FormatAtomLine;
    AtInside(outer, p, text, at[0] - |header| - 1, header + "\n");
    forall i | 0 <= i < |atoms| ensures AtomAt(outer, atoms, Moved(at, p), i) {
      var a := atoms[i];
      assert AtomAt(text, atoms, at, i);
      AtInside(outer, p, text, at[i], "- (" + a.kind + ") " + a.canonical + " [" + a.quote + "]");
      if i > 0 { AtInside(outer, p, text, at[i] - 1, "\n"); }
    }
  }

  // ------------------------------------------------------------ the current turn or query

  /** What is kept of a text that is cut to room: as many whole leading sentences as fit, or,
      if not even one does, its first characters. */
  ghost predicate Cut(text: string, room: int, sentences: seq<string>, kept: string) {
    exists k :: CutBehind(text, room, sentences, kept, k)
  }

  ghost predicate CutBehind(text: string, room: int, sentences: seq<string>, kept: string, k: int) {
    && 0 <= k <= |sentences| && Size(sentences[..k]) <= room
    && (k < |sentences| ==> Size(sentences[..k + 1]) > room)
    && if k == 0 then 0 <= room <= |text| && kept == text[..room] else Consecutive(kept, sentences[..k])
  }

  ghost predicate Consecutive(text: string, parts: seq<string>) { exists at :: Placed(text, parts, "", at) }

  /** The context starts with the current turn or query up to end: all of it when it has the
      room, else what is kept of it and the mark of the cut. */
  ghost predicate CurrentTo(text: string, query: string, turns: seq<Turn>, split: string -> seq<string>, end: int) {
    if query == "" then end == 0
    else if turns != [] && turns[|turns| - 1].fromCandidate && turns[|turns| - 1].text == query then
      TurnTo(text, turns[|turns| - 1], split(query), end)
    else QueryTo(text, query, split(query), end)
  }

  ghost predicate TurnTo(text: string, t: Turn, sentences: seq<string>, end: int) {
    var head := "[turn_id: " + t.id + " turn_index: " + Decimal(t.index) + " speaker_alias: " + t.alias + "]\n";
    var room := 2400 - |head| - 32;
    StartsWith(text, "# Current turn\n" + head, t.text, room, room, sentences, "\n[turn truncated at char budget]", end)
  }

  ghost predicate QueryTo(text: string, query: string, sentences: seq<string>, end: int) {
    StartsWith(text, "# Current query\n", query, 2400, 2400 - 33, sentences, "\n[query truncated at char budget]", end)
  }

  /** Behind the head the body, if it is no longer than limit, else what room leaves of it. */
  ghost predicate StartsWith(text: string, head: string, body: string, limit: int, room: int, sentences: seq<string>,
                             marker: string, end: int) {
    if |body| <= limit then Starts(text, head + body, end)
    else StartsCut(text, head, body, room, sentences, marker, end)
  }

  ghost predicate StartsCut(text: string, head: string, body: string, room: int, sentences: seq<string>,
                            marker: string, end: int) {
    exists kept :: Cut(body, room, sentences, kept) && Starts(text, head + kept + marker, end)
  }

  ghost predicate Starts(text: string, piece: string, end: int) { At(text, 0, piece) && end == |piece| }

  // ------------------------------------------------------------ the whole context

  /** Where the sections of a context lie: the end of the current one, and the starts of the
      pieces of the others, each list with one more entry for where a next piece would start. */
  datatype Cuts = Cuts(current: int, turns: seq<int>, working: seq<int>, evidence: seq<int>)

  ghost function EndOf(before: int, at: seq<int>, gap: int): int {
    if at == [] then before else at[|at| - 1] - gap
  }

  /** The next section starts at start: at the very beginning or behind an empty line. */
  ghost predicate NextAt(text: string, end: int, start: int) {
    start == (if end == 0 then 0 else end + 2) && (end > 0 ==> At(text, end, "\n\n"))
  }

  /** The context is the current turn or query, the recent turns, the atoms of working memory
      and those of the evidence, in this order, and nothing else. */
  ghost predicate Layout(text: string, query: string, turns: seq<Turn>, split: string -> seq<string>,
                         recent: seq<Turn>, working: seq<Atom>, evidence: seq<Atom>, cuts: Cuts) {
    && CurrentTo(text, query, turns, split, cuts.current)
    && (if recent == [] then cuts.turns == []
        else TranscriptAt(text, recent, cuts.turns) && NextAt(text, cuts.current, cuts.turns[0] - 20))
    && var recentEnd := EndOf(cuts.current, cuts.turns, 2);
       && (if working == [] then cuts.working == []
           else AtomsAt(text, "# Working memory", working, cuts.working)
                && NextAt(text, recentEnd, cuts.working[0] - 17))
       && var workingEnd := EndOf(recentEnd, cuts.working, 1);
          && (if evidence == [] then cuts.evidence == []
              else AtomsAt(text, "# Retrieved evidence", evidence, cuts.evidence)
                   && NextAt(text, workingEnd, cuts.evidence[0] - 21))
          && |text| == EndOf(workingEnd, cuts.evidence, 1)
  }

  lemma CurrentStays(text: string, more: string, query: string, turns: seq<Turn>, split: string -> seq<string>,
                     end: int)
    requires CurrentTo(text, query, turns, split, end)
    ensures CurrentTo(text + more, query, turns, split, end)
  {
    forall head, body, limit, room, sentences, marker
      | StartsWith(text, head, body, limit, room, sentences, marker, end)
      ensures StartsWith(text + more, head, body, limit, room, sentences, marker, end)
    {
      StartsStays(text, more, end);
    }
    hide StartsWith;
  }

  lemma StartsStays(text: string, more: string, end: int)
    ensures forall piece: string :: Starts(text, piece, end) ==> Starts(text + more, piece, end)
  {
    hide At;
    AtEnd(text, more);
    forall piece: string | Starts(text, piece, end) ensures Starts(text + more, piece, end) {
      AtInside(text + more, 0, text, 0, piece);
    }
  }

  lemma NextStays(text: string, more: string, end: int, start: int)
    requires NextAt(text, end, start)
    ensures NextAt(text + more, end, start)
  {
    AtEnd(text, more);
    if end > 0 { AtInside(text + more, 0, text, end, "\n\n"); }
  }

  lemma TranscriptStays(text: string, more: string, turns: seq<Turn>, at: seq<int>)
    requires TranscriptAt(text, turns, at)
    ensures TranscriptAt(text + more, turns, at)
  {
    hide At, TurnAt;
    AtEnd(text, more);
    TranscriptMoves(text + more, 0, text, turns, at);
    assert Moved(at, 0) == at;
  }

  lemma AtomsStay(text: string, more: string, header: string, atoms: seq<Atom>, at: seq<int>)
    requires AtomsAt(text, header, atoms, at)
    ensures AtomsAt(text + more, header, atoms, at)
  {
    hide At, AtomAt;
    AtEnd(text, more);
    AtomsMove(text + more, 0, text, header, atoms, at);
    assert Moved(at, 0) == at;
  }

  /** What a further block makes of the context. */
  function Extended(text: string, block: string): string { if text == "" then block else text + ("\n\n" + block) }

  lemma JoinExtended(selected: seq<string>, block: string)
    requires selected == [] || Join(selected, SEPARATOR) != ""
    ensures Join(selected + [block], SEPARATOR) == Extended(Join(selected, SEPARATOR), block)
  {
    assert (selected + [block])[..|selected|] == selected;
  }

  lemma NextOf(text: string, block: string)
    ensures NextAt(Extended(text, block), |text|, |Extended(text, block)| - |block|)
    ensures At(Extended(text, block), |Extended(text, block)| - |block|, block)
  {
    if text != "" {
      AtEnd(text, "\n\n" + block);
      AtEnd(text + "\n\n", block);
      assert text + ("\n\n" + block) == (text + "\n\n") + block;
      AtEnd("\n\n", block);
      AtInside(text + ("\n\n" + block), |text|, "\n\n" + block, 0, "\n\n");
    }
  }

  /** The recent turns follow. */
  lemma AddTranscript(text: string, query: string, turns: seq<Turn>, split: string -> seq<string>, recent: seq<Turn>,
                      cuts: Cuts) returns (after: Cuts)
    requires Layout(text, query, turns, split, [], [], [], cuts) && recent != []
    ensures Layout(Extended(text, "# Recent transcript" + "\n" + Join(Blocks(recent), SEPARATOR)), query, turns, split,
                   recent, [], [], after)
  {
    hide CurrentTo, TranscriptAt, At, Join, Blocks;
    var block := "# Recent transcript" + "\n" + Join(Blocks(recent), SEPARATOR);
    var longer := Extended(text, block);
    var p := |longer| - |block|;
    var at := BlocksShown(recent);
    TranscriptLength(block, recent, at);
    NextOf(text, block);
    TranscriptMoves(longer, p, block, recent, at);
    if text != "" {
      CurrentStays(text, "\n\n" + block, query, turns, split, cuts.current);
    } else {
      CurrentStays(text, block, query, turns, split, cuts.current);
      assert text + block == block;
    }
    after := Cuts(cuts.current, Moved(at, p), [], []);
  }

  lemma TranscriptLength(text: string, turns: seq<Turn>, at: seq<int>)
    requires TranscriptAt(text, turns, at)
    ensures |at| == |turns| + 1
  {
  }

  lemma AtomsLength(text: string, header: string, atoms: seq<Atom>, at: seq<int>)
    requires AtomsAt(text, header, atoms, at)
    ensures |at| == |atoms| + 1
  {
  }

  /** What is there stays when the context grows. */
  lemma UpperStays(text: string, more: string, query: string, turns: seq<Turn>, split: string -> seq<string>,
                   recent: seq<Turn>, cuts: Cuts)
    requires CurrentTo(text, query, turns, split, cuts.current)
    requires if recent == [] then cuts.turns == []
             else TranscriptAt(text, recent, cuts.turns) && NextAt(text, cuts.current, cuts.turns[0] - 20)
    ensures CurrentTo(text + more, query, turns, split, cuts.current)
    ensures if recent == [] then cuts.turns == []
            else TranscriptAt(text + more, recent, cuts.turns) && NextAt(text + more, cuts.current, cuts.turns[0] - 20)
  {
    CurrentStays(text, more, query, turns, split, cuts.current);
    hide CurrentTo;
    if recent != [] {
      TranscriptStays(text, more, recent, cuts.turns);
      NextStays(text, more, cuts.current, cuts.turns[0] - 20);
    }
  }

  lemma AddWorkingLines(text: string, query: string, turns: seq<Turn>, split: string -> seq<string>,
                        recent: seq<Turn>, working: seq<Atom>, cuts: Cuts) returns (after: Cuts)
    requires Layout(text, query, turns, split, recent, [], [], cuts) && working != []
    ensures Layout(Extended(text, "# Working memory" + "\n" + Join(Lines(working), "\n")), query, turns, split,
                   recent, working, [], after)
  {
    hide CurrentTo, TranscriptAt, AtomsAt, At, Join, Lines;
    var block := "# Working memory" + "\n" + Join(Lines(working), "\n");
    var longer := Extended(text, block);
    var p := |longer| - |block|;
    var at := LinesShown("# Working memory", working);
    AtomsLength(block, "# Working memory", working, at);
    if recent != [] { TranscriptLength(text, recent, cuts.turns); }
    NextOf(text, block);
    AtomsMove(longer, p, block, "# Working memory", working, at);
    GrowsBy(text, block);
    UpperStays(text, longer[|text|..], query, turns, split, recent, cuts);
    after := Cuts(cuts.current, cuts.turns, Moved(at, p), []);
  }

  lemma GrowsBy(text: string, block: string)
    ensures |Extended(text, block)| >= |text| && text + Extended(text, block)[|text|..] == Extended(text, block)
  {
  }

  lemma AddEvidenceLines(text: string, query: string, turns: seq<Turn>, split: string -> seq<string>,
                         recent: seq<Turn>, working: seq<Atom>, evidence: seq<Atom>, cuts: Cuts) returns (after: Cuts)
    requires Layout(text, query, turns, split, recent, working, [], cuts) && evidence != []
    ensures Layout(Extended(text, "# Retrieved evidence" + "\n" + Join(Lines(evidence), "\n")), query, turns, split,
                   recent, working, evidence, after)
  {
    hide CurrentTo, TranscriptAt, AtomsAt, At, Join, Lines;
    var block := "# Retrieved evidence" + "\n" + Join(Lines(evidence), "\n");
    var longer := Extended(text, block);
    var p := |longer| - |block|;
    var at := LinesShown("# Retrieved evidence", evidence);
    AtomsLength(block, "# Retrieved evidence", evidence, at);
    if recent != [] { TranscriptLength(text, recent, cuts.turns); }
    if working != [] { AtomsLength(text, "# Working memory", working, cuts.working); }
    NextOf(text, block);
    AtomsMove(longer, p, block, "# Retrieved evidence", evidence, at);
    GrowsBy(text, block);
    var more := longer[|text|..];
    UpperStays(text, more, query, turns, split, recent, cuts);
    if working != [] {
      AtomsStay(text, more, "# Working memory", working, cuts.working);
      NextStays(text, more, EndOf(cuts.current, cuts.turns, 2), cuts.working[0] - 17);
    }
    after := Cuts(cuts.current, cuts.turns, cuts.working, Moved(at, p));
  }
}
