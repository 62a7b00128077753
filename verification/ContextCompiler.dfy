/** _compile_context of session_memory.py: the current turn or query, the three
    lanes below it, the assembly and the manifest. */
module ContextCompiler {
  import opened Common
  import opened RetrievalManifest
  import opened ContextSelection
  import opened ContextAssembly
  import opened ContextAccounting
  import opened ContextText

  const QUERY_MARKER := "\n[query truncated at char budget]"
  const TURN_MARKER := "\n[turn truncated at char budget]"
  const MAX_ACTIVE_MEMORY_ATOMS := 24
  const MAX_RETRIEVED_ATOMS := 8

  type Splitter = string -> seq<string>

  // ------------------------------------------------------------ truncation

  function Concat(parts: seq<string>): (r: string)
    ensures |r| == Size(parts)
  {
    if parts == [] then "" else Concat(parts[..|parts| - 1]) + parts[|parts| - 1]
  }

  /** How many of the leading parts fit the budget. */
  function FitFrom(parts: seq<string>, i: nat, budget: nat): (k: nat)
    requires i <= |parts| && Size(parts[..i]) <= budget
    ensures i <= k <= |parts| && Size(parts[..k]) <= budget
    ensures k < |parts| ==> Size(parts[..k + 1]) > budget
    decreases |parts| - i
  {
    if i == |parts| || Size(parts[..i + 1]) > budget then i else FitFrom(parts, i + 1, budget)
  }

  /** What is kept of a text too long for the budget: whole sentences, or a hard cut. */
  function KeptText(body: string, budget: nat, split: Splitter): (r: string)
    requires |body| > budget
    ensures |r| <= budget
  {
    var k := FitFrom(split(body), 0, budget);
    if k > 0 then Concat(split(body)[..k]) else body[..budget]
  }

  /** _truncate_body_to_budget_with_marker. */
  method TruncateBodyToBudgetWithMarker(body: string, budget: int, marker: string, split: Splitter)
    returns (r: Maybe<string>)
    ensures r == if budget <= 0 then Nothing
                 else Just(if |body| <= budget then body else KeptText(body, budget, split) + marker)
  {
    hide Concat, FitFrom, Size;
    if budget <= 0 { return Nothing; }
    if |body| <= budget { return Just(body); }
    var parts := split(body);
    var kept: seq<string>, used, i := [], 0, 0;
    SizeStep(parts, 0);
    while i < |parts|
      invariant 0 <= i <= |parts| && kept == parts[..i]
      invariant used == Size(parts[..i]) <= budget
      invariant FitFrom(parts, 0, budget) == FitFrom(parts, i, budget)
    {
      SizeStep(parts, i);
      FitStep(parts, i, budget);
      var cost := |parts[i]|;
      if used + cost > budget { break; }
      kept := kept + [parts[i]];
      used := used + cost;
      i := i + 1;
    }
    if kept != [] { return Just(Concat(kept) + marker); }
    return Just(body[..budget] + marker);
  }

  lemma SizeStep(parts: seq<string>, i: nat)
    ensures Size(parts[..0]) == 0
    ensures i < |parts| ==> Size(parts[..i + 1]) == Size(parts[..i]) + |parts[i]|
  {
    if i < |parts| { assert parts[..i + 1][..i] == parts[..i]; }
  }

  lemma FitStep(parts: seq<string>, i: nat, budget: nat)
    requires i < |parts| && Size(parts[..i]) <= budget
    ensures FitFrom(parts, i, budget) == if Size(parts[..i + 1]) > budget then i else FitFrom(parts, i + 1, budget)
  {
  }

  /** _truncate_query_to_budget. */
  method TruncateQueryToBudget(query: string, budget: int, split: Splitter) returns (r: Maybe<string>)
    ensures r == if |query| <= budget then Just(query)
                 else if budget - |QUERY_MARKER| <= 0 then Nothing
                 else Just(KeptText(query, budget - |QUERY_MARKER|, split) + QUERY_MARKER)
  {
    if |query| <= budget { return Just(query); }
    var bodyBudget := budget - |QUERY_MARKER|;
    if bodyBudget <= 0 { return Nothing; }
    r := TruncateBodyToBudgetWithMarker(query, bodyBudget, QUERY_MARKER, split);
  }

  /** The characters a turn's text may have before it is truncated. */
  function TextRoom(t: Turn, budget: int): int { budget - (|Header(t)| + 1) - |TURN_MARKER| }

  /** _truncate_turn_block_to_budget. */
  method TruncateTurnBlockToBudget(t: Turn, budget: int, split: Splitter) returns (r: Maybe<string>)
    ensures r == if TextRoom(t, budget) <= 0 then Nothing
                 else if |t.text| <= TextRoom(t, budget) then Just(FormatTurnBlock(t))
                 else Just(Header(t) + "\n" + (KeptText(t.text, TextRoom(t, budget), split) + TURN_MARKER))
  {
    var header := Header(t);
    var headerCost := |header| + 1;
    if budget <= headerCost + |TURN_MARKER| { return Nothing; }
    var bodyBudget := budget - headerCost - |TURN_MARKER|;
    if |t.text| <= bodyBudget { return Just(header + "\n" + t.text); }
    var body := TruncateBodyToBudgetWithMarker(t.text, bodyBudget, TURN_MARKER, split);
    return Just(header + "\n" + body.value);
  }

  // ------------------------------------------------------------ the current unit

  /** The query is the last turn itself. */
  predicate IsLastTurn(query: string, turns: seq<Turn>) {
    turns != [] && turns[|turns| - 1].fromCandidate && turns[|turns| - 1].text == query
  }

  function ExcludedIndex(query: string, turns: seq<Turn>): Maybe<nat> {
    if query != "" && IsLastTurn(query, turns) then Just(turns[|turns| - 1].index) else Nothing
  }

  /** The rendered current turn or query, and the room it was cut to. */
  function CurrentBody(query: string, turns: seq<Turn>, split: Splitter): Maybe<string> {
    var budget := Budget(Current);
    if IsLastTurn(query, turns) then
      var t := turns[|turns| - 1];
      if TextRoom(t, budget) <= 0 then Nothing
      else if |t.text| <= TextRoom(t, budget) then Just(FormatTurnBlock(t))
      else Just(Header(t) + "\n" + (KeptText(t.text, TextRoom(t, budget), split) + TURN_MARKER))
    else if |query| <= budget then Just(query)
    else Just(KeptText(query, budget - |QUERY_MARKER|, split) + QUERY_MARKER)
  }

  function CurrentPairs(query: string, turns: seq<Turn>, split: Splitter): seq<(string, string)> {
    if query == "" || CurrentBody(query, turns, split).Nothing? then []
    else [(if IsLastTurn(query, turns) then "# Current turn" else "# Current query",
           CurrentBody(query, turns, split).value)]
  }

  /** When the current unit can be recorded: a text that is not cut contains no
      marker, and a turn that is cut loses more characters than the marker adds. */
  predicate CurrentOk(query: string, turns: seq<Turn>, split: Splitter) {
    query == "" ||
    if IsLastTurn(query, turns) then
      var t := turns[|turns| - 1];
      var room := TextRoom(t, Budget(Current));
      && room > 0
      && if |t.text| <= room then !OccursIn(TURN_MARKER, FormatTurnBlock(t))
         else |KeptText(t.text, room, split)| + |TURN_MARKER| < |t.text|
    else |query| <= Budget(Current) ==> !OccursIn(QUERY_MARKER, query)
  }

  lemma EndsWith(text: string, marker: string)
    ensures OccursIn(marker, text + marker)
  {
    assert (text + marker)[|text|..|text| + |marker|] == marker;
  }

  /** The current turn: it can be recorded exactly when CurrentOk holds. */
  lemma TurnCase(query: string, turns: seq<Turn>, split: Splitter, body: string)
    requires query != "" && IsLastTurn(query, turns) && CurrentBody(query, turns, split) == Just(body)
    ensures var full, truncated := |FormatTurnBlock(turns[|turns| - 1])|, OccursIn(TURN_MARKER, body);
            && (CurrentOk(query, turns, split) <==> (truncated ==> |body| < full))
            && (!truncated ==> |body| == full) && 0 < |body| <= Budget(Current)
  {
    var t := turns[|turns| - 1];
    var room := TextRoom(t, Budget(Current));
    if |t.text| > room {
      var kept := KeptText(t.text, room, split);
      EndsWith(Header(t) + "\n" + kept, TURN_MARKER);
      assert body == (Header(t) + "\n" + kept) + TURN_MARKER;
    }
  }

  /** The current query. */
  lemma QueryCase(query: string, turns: seq<Turn>, split: Splitter, body: string)
    requires query != "" && !IsLastTurn(query, turns) && CurrentBody(query, turns, split) == Just(body)
    ensures var truncated := OccursIn(QUERY_MARKER, body);
            && (CurrentOk(query, turns, split) <==> (truncated ==> |body| < |query|))
            && (!truncated ==> |body| == |query|) && 0 < |body| <= Budget(Current)
  {
    if |query| > Budget(Current) {
      EndsWith(KeptText(query, Budget(Current) - |QUERY_MARKER|, split), QUERY_MARKER);
    }
  }

  /** No unit, or the one unit of the lane that lists all its included candidates. */
  ghost predicate LaneReady(t: Table, lane: Lane, us: seq<Unit>) {
    && |us| <= 1
    && (us != [] ==> UnitOk(us[0], t) && us[0].lane == lane)
    && (forall k :: k in t.at && k.lane == lane && t.at[k].included > 0 ==> us != [] && k in us[0].ids)
  }

  lemma OneRecorded(c: Candidate, u: Unit)
    requires CandidateOk(c) && c.id.lane == Current == u.lane && u.ids == [c.id] && c.included == |u.body|
             && 0 < |u.body| <= Budget(Current)
    ensures var t := Put(Table([], map[]), c);
            && TableOk(t) && LaneReady(t, Current, [u]) && !CountedTwice(u.ids, t.at)
            && forall k :: k in t.at ==> k.lane == Current
  {
    var t := Put(Table([], map[]), c);
    assert u.ids[..0] == [];
    assert ListSum(u.ids, t.at) == c.included;
    assert multiset(u.ids) == multiset{c.id};
  }

  /** The branch of _compile_context on the current turn or query. */
  method CurrentText(query: string, turns: seq<Turn>, split: Splitter, queryId: string)
    returns (ok: bool, header: string, document: string, body: string, truncated: bool, full: nat)
    requires query != ""
    ensures ok == CurrentBody(query, turns, split).Just?
    ensures ok ==> CurrentPairs(query, turns, split) == [(header, body)]
    ensures ok ==> (CurrentOk(query, turns, split) <==> (truncated ==> |body| < full))
    ensures ok ==> (!truncated ==> |body| == full) && 0 < |body| <= Budget(Current)
    ensures !ok ==> !CurrentOk(query, turns, split)
  {
    ok, header, document, body, truncated, full := true, "# Current query", queryId, "", false, 0;
    if IsLastTurn(query, turns) {
      var turn := turns[|turns| - 1];
      var r := TruncateTurnBlockToBudget(turn, Budget(Current), split);
      if r.Nothing? { ok := false; return; }
      header, document, body := "# Current turn", turn.id, r.value;
      full := |FormatTurnBlock(turn)|;
      truncated := OccursIn(TURN_MARKER, body);
      TurnCase(query, turns, split, body);
    } else {
      var r := TruncateQueryToBudget(query, Budget(Current), split);
      body := r.value;
      full := |query|;
      truncated := OccursIn(QUERY_MARKER, body);
      QueryCase(query, turns, split, body);
    }
  }

  /** The current unit of _compile_context. queryId is the query's hash. */
  method AddCurrent(query: string, turns: seq<Turn>, split: Splitter, queryId: string, store: CandidateStore)
    returns (ok: bool, units: seq<Unit>, exclude: Maybe<nat>)
    requires store.table == Table([], map[])
    modifies store
    ensures ok == CurrentOk(query, turns, split)
    ensures ok ==> exclude == ExcludedIndex(query, turns)
    ensures ok ==> Pairs(units) == CurrentPairs(query, turns, split)
    ensures ok ==> TableOk(store.table) && LaneReady(store.table, Current, units)
    ensures ok ==> forall k :: k in store.table.at ==> k.lane == Current
    ensures ok ==> forall u :: u in units ==> !CountedTwice(u.ids, store.table.at)
  {
    if query == "" { return true, [], Nothing; }
    hide CurrentOk, CurrentBody, CurrentPairs, CountedTwice, LaneReady, TableOk, Put;
    units, exclude := [], Nothing;
    var header, document, body, truncated, full;
    ok, header, document, body, truncated, full := CurrentText(query, turns, split, queryId);
    if !ok { return; }
    if IsLastTurn(query, turns) { exclude := Just(turns[|turns| - 1].index); }
    ok := store.Record(Current, document, body, if truncated then AcceptedTruncated else Accepted,
                       if truncated then TruncatedToBudget else RequiredCurrent, Just(full));
    if !ok { return; }
    units := [Unit(header, body, Current, [CandidateId(Current, document)])];
    OneRecorded(NewCandidate(Current, document, |body|, if truncated then AcceptedTruncated else Accepted,
                             if truncated then TruncatedToBudget else RequiredCurrent, Just(full)), units[0]);
  }

  // ------------------------------------------------------------ sizes of selections

  function Separators(extra: nat, n: nat): nat { extra * n }

  lemma SeparatorsStep(extra: nat, n: nat)
    ensures Separators(extra, 0) == 0 && Separators(extra, n + 1) == Separators(extra, n) + extra
  {
  }

  /** What the chosen items cost is their size and their separators. */
  lemma {:induction false} SpentIsSize(items: seq<Item>, texts: seq<string>, f: seq<bool>, extra: nat)
    requires |items| == |texts| == |f|
    requires forall i :: 0 <= i < |items| ==> items[i].cost == |texts[i]| + extra
    ensures Spent(items, f) == Size(Chosen(texts, f)) + Separators(extra, Taken(f))
  {
    hide Separators;
    SeparatorsStep(extra, if f == [] then 0 else Taken(f[..|f| - 1]));
    if f != [] {
      var n := |f| - 1;
      SpentIsSize(items[..n], texts[..n], f[..n], extra);
      var before := Chosen(texts[..n], f[..n]);
      if f[n] {
        assert (before + [texts[n]])[..|before|] == before;
      } else {
        assert Chosen(texts, f) == before;
      }
    }
  }

  lemma {:induction false} SizeConcat(a: seq<string>, b: seq<string>)
    ensures Size(a + b) == Size(a) + Size(b)
  {
    if b == [] {
      assert a + b == a;
    } else {
      assert (a + b)[..|a + b| - 1] == a + b[..|b| - 1];
      SizeConcat(a, b[..|b| - 1]);
    }
  }

  lemma {:induction false} SizeReversed(a: seq<string>)
    ensures Size(Reversed(a)) == Size(a)
  {
    if a != [] {
      SizeReversed(a[1..]);
      SizeConcat(Reversed(a[1..]), [a[0]]);
      SizeConcat([a[0]], a[1..]);
      assert a == [a[0]] + a[1..];
      assert [a[0]][..0] == [];
    }
  }

  lemma {:induction false} ChosenConcat<T>(a: seq<T>, b: seq<T>, f: seq<bool>, g: seq<bool>)
    requires |a| == |f| && |b| == |g|
    ensures Chosen(a + b, f + g) == Chosen(a, f) + Chosen(b, g)
  {
    hide Taken;
    if b == [] {
      assert a + b == a && f + g == f;
    } else {
      var n := |b| - 1;
      assert (a + b)[..|a| + n] == a + b[..n] && (f + g)[..|a| + n] == f + g[..n];
      ChosenConcat(a, b[..n], f, g[..n]);
    }
  }

  lemma {:induction false} ReversedConcat<T>(a: seq<T>, b: seq<T>)
    ensures Reversed(a + b) == Reversed(b) + Reversed(a)
  {
  }

  /** Choosing from the reversed list is choosing with the reversed flags. */
  lemma {:induction false} ChosenReversed<T>(all: seq<T>, f: seq<bool>)
    requires |all| == |f|
    ensures Reversed(Chosen(Reversed(all), f)) == Chosen(all, Reversed(f))
  {
    hide Reversed;
    if all != [] {
      var n := |all| - 1;
      var last := if f[n] then [all[0]] else [];
      ChosenReversed(all[1..], f[..n]);
      assert Reversed(all)[..n] == Reversed(all[1..]);
      assert Chosen(Reversed(all), f) == Chosen(Reversed(all[1..]), f[..n]) + last;
      ReversedConcat(Chosen(Reversed(all[1..]), f[..n]), last);
      assert Reversed(last) == last;
      assert f == f[..n] + [f[n]];
      assert Reversed(f) == [f[n]] + Reversed(f[..n]) by { ReversedConcat(f[..n], [f[n]]); }
      ChosenConcat([all[0]], all[1..], [f[n]], Reversed(f[..n]));
      assert [all[0]] + all[1..] == all;
      assert Chosen([all[0]], [f[n]]) == last by { assert [all[0]][..0] == []; }
    }
  }

  lemma {:induction false} ChosenBlocks(turns: seq<Turn>, f: seq<bool>)
    requires |turns| == |f|
    ensures Chosen(Blocks(turns), f) == Blocks(Chosen(turns, f))
  {
    if turns != [] {
      var n := |turns| - 1;
      ChosenBlocks(turns[..n], f[..n]);
      assert Blocks(turns)[..n] == Blocks(turns[..n]);
    }
  }

  lemma {:induction false} ChosenLines(atoms: seq<Atom>, f: seq<bool>)
    requires |atoms| == |f|
    ensures Chosen(Lines(atoms), f) == Lines(Chosen(atoms, f))
  {
    if atoms != [] {
      var n := |atoms| - 1;
      ChosenLines(atoms[..n], f[..n]);
      assert Lines(atoms)[..n] == Lines(atoms[..n]);
    }
  }

  // ------------------------------------------------------------ the recent transcript

  /** The turns whose blocks are kept, in transcript order. */
  function KeptTurns(turns: seq<Turn>, exclude: Maybe<nat>): seq<Turn> {
    Chosen(turns, Reversed(TailFlags(turns, Budget(Recent), exclude)))
  }

  lemma TailBlocksAreKept(turns: seq<Turn>, exclude: Maybe<nat>)
    ensures TailBlocks(turns, Budget(Recent), exclude) == Blocks(KeptTurns(turns, exclude))
    ensures Size(Blocks(KeptTurns(turns, exclude))) <= Budget(Recent)
    ensures |Join(Blocks(KeptTurns(turns, exclude)), SEPARATOR)| <= Budget(Recent)
  {
    var f := TailFlags(turns, Budget(Recent), exclude);
    hide FormatTurnBlock, Greedy, Chosen, Reversed, Spent, Size, Join, Taken;
    var newest := Blocks(Reversed(turns));
    assert newest == Reversed(Blocks(turns));
    ChosenReversed(Blocks(turns), f);
    ChosenBlocks(turns, Reversed(f));
    SpentIsSize(TailItems(turns, exclude), newest, f, 2);
    GreedyFits(TailItems(turns, exclude), |turns|, Budget(Recent));
    SizeReversed(Chosen(newest, f));
    JoinSize(Blocks(KeptTurns(turns, exclude)), SEPARATOR);
  }

  function TailPairs(turns: seq<Turn>, exclude: Maybe<nat>): seq<(string, string)> {
    var blocks := TailBlocks(turns, Budget(Recent), exclude);
    if blocks == [] then [] else [("# Recent transcript", Join(blocks, SEPARATOR))]
  }

  ghost predicate TurnsOk(turns: seq<Turn>) {
    && (forall i :: 0 <= i < |turns| ==> turns[i].index == i)
    && (forall i, j :: 0 <= i < j < |turns| ==> turns[i].id != turns[j].id)
  }

  function TurnIds(turns: seq<Turn>): (r: seq<CandidateId>)
    ensures |r| == |turns|
  {
    seq(|turns|, i requires 0 <= i < |turns| => CandidateId(Recent, turns[i].id))
  }

  lemma {:induction false} ChosenTurnIds(turns: seq<Turn>, f: seq<bool>)
    requires |turns| == |f|
    ensures Chosen(TurnIds(turns), f) == TurnIds(Chosen(turns, f))
  {
    if turns != [] {
      var n := |turns| - 1;
      ChosenTurnIds(turns[..n], f[..n]);
      assert TurnIds(turns)[..n] == TurnIds(turns[..n]);
    }
  }

  /** k is chosen below n. */
  ghost predicate TakenBelow(ids: seq<CandidateId>, f: seq<bool>, k: CandidateId, n: int)
    requires |ids| == |f|
  {
    exists i :: i < n && TakenAt(ids, f, k, i)
  }

  /** k is chosen at two places below n. */
  ghost predicate TakenTwice(ids: seq<CandidateId>, f: seq<bool>, k: CandidateId, n: int)
    requires |ids| == |f|
  {
    exists j :: j < n && TakenAt(ids, f, k, j) && TakenBelow(ids, f, k, j)
  }

  lemma TakenStep(ids: seq<CandidateId>, f: seq<bool>, k: CandidateId, n: nat)
    requires |ids| == |f|
    ensures TakenBelow(ids, f, k, n + 1) <==> TakenBelow(ids, f, k, n) || TakenAt(ids, f, k, n)
    ensures TakenTwice(ids, f, k, n + 1) <==>
            TakenTwice(ids, f, k, n) || (TakenAt(ids, f, k, n) && TakenBelow(ids, f, k, n))
  {
    hide TakenAt;
    if TakenAt(ids, f, k, n) && TakenBelow(ids, f, k, n) {
      assert n < n + 1;
    }
    hide TakenBelow;
    if j :| j < n + 1 && TakenAt(ids, f, k, j) && TakenBelow(ids, f, k, j) {
      assert j < n || j == n;
    }
  }

  /** How often k is chosen below n. */
  function HowOften(ids: seq<CandidateId>, f: seq<bool>, k: CandidateId, n: nat): nat
    requires |ids| == |f| && n <= |ids|
  {
    multiset(Chosen(ids[..n], f[..n]))[k]
  }

  lemma CountStep(ids: seq<CandidateId>, f: seq<bool>, k: CandidateId, n: nat)
    requires |ids| == |f| && n < |ids|
    ensures HowOften(ids, f, k, n + 1) == HowOften(ids, f, k, n) + if TakenAt(ids, f, k, n) then 1 else 0
  {
    hide Chosen;
    ChosenStep(ids, f[..n], n, f[n]);
    assert f[..n + 1] == f[..n] + [f[n]];
  }

  lemma NothingChosen(ids: seq<CandidateId>, f: seq<bool>, k: CandidateId)
    requires |ids| == |f|
    ensures HowOften(ids, f, k, 0) == 0 && !TakenBelow(ids, f, k, 0) && !TakenTwice(ids, f, k, 0)
  {
  }

  lemma TakenBoth(ids: seq<CandidateId>, f: seq<bool>, k: CandidateId, n: nat)
    requires |ids| == |f|
    ensures TakenTwice(ids, f, k, n) ==> TakenBelow(ids, f, k, n)
  {
    hide TakenAt;
  }

  lemma {:induction false} TakenOften(ids: seq<CandidateId>, f: seq<bool>, k: CandidateId, n: nat)
    requires |ids| == |f| && n <= |ids|
    ensures HowOften(ids, f, k, n) >= 1 <==> TakenBelow(ids, f, k, n)
    ensures HowOften(ids, f, k, n) >= 2 <==> TakenTwice(ids, f, k, n)
  {
    hide HowOften, TakenBelow, TakenTwice, TakenAt;
    if n == 0 {
      NothingChosen(ids, f, k);
    } else {
      TakenOften(ids, f, k, n - 1);
      TakenStep(ids, f, k, n - 1);
      CountStep(ids, f, k, n - 1);
      TakenBoth(ids, f, k, n - 1);
    }
  }

  lemma ChosenCount(ids: seq<CandidateId>, f: seq<bool>, k: CandidateId, n: nat)
    requires |ids| == |f| && n <= |ids|
    ensures multiset(Chosen(ids[..n], f[..n]))[k] >= 1 <==> TakenBelow(ids, f, k, n)
    ensures multiset(Chosen(ids[..n], f[..n]))[k] >= 2 <==> TakenTwice(ids, f, k, n)
  {
    hide Chosen, TakenBelow, TakenTwice;
    TakenOften(ids, f, k, n);
  }

  /** Nothing of the other lanes changed. */
  ghost predicate OnlyLane(before: Table, after: Table, lane: Lane) {
    forall k: CandidateId :: k.lane != lane ==>
        (k in before.at <==> k in after.at) && (k in before.at ==> before.at[k] == after.at[k])
  }

  ghost predicate LaneEmpty(t: Table, lane: Lane) { forall k :: k in t.at ==> k.lane != lane }

  lemma TailRecordIs(turns: seq<Turn>, exclude: Maybe<nat>, f: seq<bool>, p: nat)
    requires |f| == |turns| && p < |turns|
    ensures TailRecords(turns, exclude, f)[p] == TailRecord(turns[|turns| - 1 - p], exclude, f[p])
  {
    hide TailRecord;
  }

  lemma TurnIdAt(turns: seq<Turn>, i: nat)
    requires i < |turns|
    ensures TurnIds(turns)[i] == CandidateId(Recent, turns[i].id)
  {
  }

  lemma FlagAt(f: seq<bool>, i: nat)
    requires i < |f|
    ensures Reversed(f)[i] == f[|f| - 1 - i]
  {
  }

  lemma TailRecordAt(turns: seq<Turn>, exclude: Maybe<nat>, f: seq<bool>, i: nat)
    requires |f| == |turns| && i < |turns|
    ensures var c := TailRecords(turns, exclude, f)[|turns| - 1 - i];
            && c == TailRecord(turns[i], exclude, Reversed(f)[i]) && CandidateOk(c)
            && c.id == TurnIds(turns)[i] == CandidateId(Recent, turns[i].id)
  {
    hide TailRecord, TailRecords, FormatTurnBlock, CandidateOk, Reversed, TurnIds;
    TurnIdAt(turns, i);
    FlagAt(f, i);
    TailRecordIs(turns, exclude, f, |turns| - 1 - i);
    TailRecordOk(turns[i], exclude, f[|turns| - 1 - i]);
  }

  /** The record of a turn in the table of the tail. */
  lemma TailEntry(t: Table, turns: seq<Turn>, exclude: Maybe<nat>, i: nat)
    requires TurnsOk(turns) && i < |turns|
    ensures var f := TailFlags(turns, Budget(Recent), exclude);
            var r := RecordAll(t, TailRecords(turns, exclude, f));
            && TurnIds(turns)[i] in r.at && r.at[TurnIds(turns)[i]] == TailRecord(turns[i], exclude, Reversed(f)[i])
            && (Reversed(f)[i] ==> !Excluded(turns[i], exclude))
  {
    hide TailRecord, FormatTurnBlock, RecordAll, Greedy, TailRecords, CandidateOk, Spent, Taken;
    var f := TailFlags(turns, Budget(Recent), exclude);
    var p := |turns| - 1 - i;
    TailRecordAt(turns, exclude, f, i);
    GreedyTakes(TailItems(turns, exclude), |turns|, Budget(Recent), p);
    var cs := TailRecords(turns, exclude, f);
    forall j | p < j < |cs| ensures cs[j].id != cs[p].id {
      TailRecordAt(turns, exclude, f, |turns| - 1 - j);
    }
    LastRecordStands(t, cs, p);
  }

  lemma TailOther(t: Table, turns: seq<Turn>, exclude: Maybe<nat>, f: seq<bool>, k: CandidateId)
    requires |f| == |turns| && k !in TurnIds(turns)
    ensures var r := RecordAll(t, TailRecords(turns, exclude, f));
            (k in r.at <==> k in t.at) && (k in t.at ==> r.at[k] == t.at[k])
  {
    var cs := TailRecords(turns, exclude, f);
    forall i | 0 <= i < |cs| ensures cs[i].id != k {
      TailRecordAt(turns, exclude, f, |turns| - 1 - i);
    }
    OthersStand(t, cs, k);
  }

  /** What the table says of the turns: each one's own record, by its flag. */
  ghost predicate TailDescribed(t: Table, turns: seq<Turn>, exclude: Maybe<nat>, g: seq<bool>)
    requires |g| == |turns|
  {
    && (forall i :: 0 <= i < |turns| ==>
          && TurnIds(turns)[i] in t.at && t.at[TurnIds(turns)[i]] == TailRecord(turns[i], exclude, g[i])
          && (g[i] ==> !Excluded(turns[i], exclude)))
    && (forall k :: k in t.at && k.lane == Recent ==> k in TurnIds(turns))
  }

  lemma TailTable(t: Table, turns: seq<Turn>, exclude: Maybe<nat>)
    requires TableOk(t) && TurnsOk(turns) && LaneEmpty(t, Recent)
    ensures var f := TailFlags(turns, Budget(Recent), exclude);
            var r := RecordAll(t, TailRecords(turns, exclude, f));
            TableOk(r) && OnlyLane(t, r, Recent) && TailDescribed(r, turns, exclude, Reversed(f))
  {
    hide TailRecord, FormatTurnBlock, RecordAll, TailRecords, CandidateOk, TailFlags, Reversed;
    var f := TailFlags(turns, Budget(Recent), exclude);
    var cs := TailRecords(turns, exclude, f);
    var r := RecordAll(t, cs);
    forall i | 0 <= i < |cs| ensures CandidateOk(cs[i]) {
      TailRecordAt(turns, exclude, f, |turns| - 1 - i);
    }
    RecordAllOk(t, cs);
    forall i | 0 <= i < |turns|
      ensures TurnIds(turns)[i] in r.at && r.at[TurnIds(turns)[i]] == TailRecord(turns[i], exclude, Reversed(f)[i])
      ensures Reversed(f)[i] ==> !Excluded(turns[i], exclude)
    {
      TailEntry(t, turns, exclude, i);
    }
    hide TailRecords, TailRecord, TailFlags, RecordAll, TableOk, TurnsOk;
    forall k: CandidateId | k !in TurnIds(turns)
      ensures (k in r.at <==> k in t.at) && (k in t.at ==> r.at[k] == t.at[k])
    {
      TailOther(t, turns, exclude, f, k);
    }
  }

  /** The ids of the accepted turns, in transcript order. */
  method AcceptedTurnIds(turns: seq<Turn>, exclude: Maybe<nat>, store: CandidateStore, ghost g: seq<bool>)
    returns (ids: seq<CandidateId>)
    requires |g| == |turns| && TailDescribed(store.table, turns, exclude, g)
    ensures ids == TurnIds(Chosen(turns, g))
  {
    hide TailRecord, FormatTurnBlock, Chosen;
    ids := [];
    for i := 0 to |turns|
      invariant ids == Chosen(TurnIds(turns)[..i], g[..i])
    {
      assert g[..i + 1] == g[..i] + [g[i]];
      ChosenStep(TurnIds(turns), g[..i], i, g[i]);
      var turn := turns[i];
      var cid := CandidateId(Recent, turn.id);
      assert cid == TurnIds(turns)[i];
      TailRecordOk(turn, exclude, g[i]);
      if exclude.Just? && turn.index == exclude.value { continue; }
      if cid in store.table.at && store.table.at[cid].status == Accepted {
        ids := ids + [cid];
      }
    }
    assert TurnIds(turns)[..|turns|] == TurnIds(turns) && g[..|turns|] == g;
    ChosenTurnIds(turns, g);
  }

  lemma {:induction false} ListSumBlocks(turns: seq<Turn>, at: map<CandidateId, Candidate>)
    requires forall i :: 0 <= i < |turns| ==>
             TurnIds(turns)[i] in at && at[TurnIds(turns)[i]].included == |FormatTurnBlock(turns[i])|
    ensures (forall k :: k in TurnIds(turns) ==> k in at) && ListSum(TurnIds(turns), at) == Size(Blocks(turns))
  {
    if turns != [] {
      var n := |turns| - 1;
      assert TurnIds(turns)[..n] == TurnIds(turns[..n]) && Blocks(turns)[..n] == Blocks(turns[..n]);
      assert forall i :: 0 <= i < n ==> TurnIds(turns[..n])[i] == TurnIds(turns)[i];
      ListSumBlocks(turns[..n], at);
    }
  }

  /** The recent transcript of _compile_context. */
  method AddTail(turns: seq<Turn>, exclude: Maybe<nat>, store: CandidateStore) returns (units: seq<Unit>)
    requires TableOk(store.table) && TurnsOk(turns) && LaneEmpty(store.table, Recent)
    modifies store
    ensures Pairs(units) == TailPairs(turns, exclude)
    ensures TableOk(store.table) && OnlyLane(old(store.table), store.table, Recent)
    ensures LaneReady(store.table, Recent, units)
    ensures forall u :: u in units ==> !CountedTwice(u.ids, store.table.at)
  {
    hide TailBlocks, TailFlags, RecordAll, TailRecords, TailRecord, TableOk, OnlyLane, LaneReady, CountedTwice,
         Reversed, TurnsOk, Chosen, TailDescribed;
    ghost var g := Reversed(TailFlags(turns, Budget(Recent), exclude));
    TailTable(store.table, turns, exclude);
    units := [];
    var blocks := InstrumentTailTurnBlocks(turns, Budget(Recent), exclude, store);
    TailBlocksAreKept(turns, exclude);
    if blocks != [] {
      var ids := AcceptedTurnIds(turns, exclude, store, g);
      units := [Unit("# Recent transcript", Join(blocks, SEPARATOR), Recent, ids)];
    }
    TailUnitReady(store.table, turns, exclude, g, units);
  }

  lemma TailUnitReady(t: Table, turns: seq<Turn>, exclude: Maybe<nat>, g: seq<bool>, units: seq<Unit>)
    requires TurnsOk(turns) && g == Reversed(TailFlags(turns, Budget(Recent), exclude)) && |g| == |turns|
    requires TailDescribed(t, turns, exclude, g)
    requires var keep := Chosen(turns, g);
             units == if keep == [] then []
                      else [Unit("# Recent transcript", Join(Blocks(keep), SEPARATOR), Recent, TurnIds(keep))]
    ensures LaneReady(t, Recent, units) && forall u :: u in units ==> !CountedTwice(u.ids, t.at)
  {
    hide Chosen, Join, Size, TailFlags, Reversed, TurnsOk, TailDescribed, Blocks, ListSum;
    var keep := Chosen(turns, g);
    TailListed(t, turns, exclude, g);
    TailListSum(t, turns, exclude, g);
    TailNoRepeat(turns, g);
    TailBlocksAreKept(turns, exclude);
    JoinSize(Blocks(keep), SEPARATOR);
    if keep != [] { BlocksNotEmpty(keep); }
    assert units != [] ==> AllIn(units[0].ids, t);
  }

  lemma BlocksNotEmpty(turns: seq<Turn>)
    requires turns != []
    ensures Size(Blocks(turns)) > 0
  {
    var n := |turns| - 1;
    assert |Blocks(turns)[n]| > 0;
  }

  lemma TailListed(t: Table, turns: seq<Turn>, exclude: Maybe<nat>, g: seq<bool>)
    requires |g| == |turns| && TailDescribed(t, turns, exclude, g)
    ensures forall k :: k in t.at && k.lane == Recent && t.at[k].included > 0 ==> k in TurnIds(Chosen(turns, g))
  {
    hide TailRecord, FormatTurnBlock, Chosen;
    var ids := TurnIds(turns);
    ChosenTurnIds(turns, g);
    ChosenFrom(ids, g);
    forall k | k in t.at && k.lane == Recent && t.at[k].included > 0 ensures k in TurnIds(Chosen(turns, g)) {
      var j :| 0 <= j < |ids| && ids[j] == k;
      TailRecordOk(turns[j], exclude, g[j]);
      assert TakenAt(ids, g, k, j);
    }
  }

  lemma TailListSum(t: Table, turns: seq<Turn>, exclude: Maybe<nat>, g: seq<bool>)
    requires |g| == |turns| && TailDescribed(t, turns, exclude, g)
    ensures var keep := Chosen(turns, g);
            AllIn(TurnIds(keep), t) && ListSum(TurnIds(keep), t.at) == Size(Blocks(keep))
  {
    hide TailRecord, FormatTurnBlock, Chosen;
    var keep := Chosen(turns, g);
    ChosenFrom(turns, g);
    forall i | 0 <= i < |keep|
      ensures TurnIds(keep)[i] in t.at && t.at[TurnIds(keep)[i]].included == |FormatTurnBlock(keep[i])|
    {
      assert keep[i] in keep;
      var j :| TakenAt(turns, g, keep[i], j);
      assert TurnIds(keep)[i] == TurnIds(turns)[j];
      TailRecordOk(turns[j], exclude, g[j]);
    }
    ListSumBlocks(keep, t.at);
  }

  lemma TailNoRepeat(turns: seq<Turn>, g: seq<bool>)
    requires |g| == |turns| && TurnsOk(turns)
    ensures forall k :: multiset(TurnIds(Chosen(turns, g)))[k] < 2
  {
    var ids := TurnIds(turns);
    ChosenTurnIds(turns, g);
    assert ids[..|ids|] == ids && g[..|g|] == g;
    forall k ensures multiset(TurnIds(Chosen(turns, g)))[k] < 2 {
      ChosenCount(ids, g, k, |ids|);
      assert !TakenTwice(ids, g, k, |ids|) by {
        forall j, i | i < j && TakenAt(ids, g, k, j) ensures !TakenAt(ids, g, k, i) {}
      }
    }
  }

  // ------------------------------------------------------------ the two atom lanes

  function AtomIds(lane: Lane, atoms: seq<Atom>): (r: seq<CandidateId>)
    ensures |r| == |atoms|
  {
    seq(|atoms|, i requires 0 <= i < |atoms| => CandidateId(lane, atoms[i].id))
  }

  lemma {:induction false} ChosenAtomIds(lane: Lane, atoms: seq<Atom>, f: seq<bool>)
    requires |atoms| == |f|
    ensures Chosen(AtomIds(lane, atoms), f) == AtomIds(lane, Chosen(atoms, f))
  {
    if atoms != [] {
      var n := |atoms| - 1;
      ChosenAtomIds(lane, atoms[..n], f[..n]);
      assert AtomIds(lane, atoms)[..n] == AtomIds(lane, atoms[..n]);
    }
  }

  /** An atom id is the hash of everything else in the atom. */
  ghost predicate IdsNameAtoms(atoms: seq<Atom>) {
    forall i, j :: 0 <= i < |atoms| && 0 <= j < |atoms| && atoms[i].id == atoms[j].id ==> atoms[i] == atoms[j]
  }

  ghost predicate LastCopy(ranked: seq<Atom>, i: int) {
    0 <= i < |ranked| && forall j :: i < j < |ranked| ==> ranked[j].id != ranked[i].id
  }

  /** Every copy of some repeated atom that matters is taken: an earlier one and the last one. */
  ghost predicate RepeatTaken(ranked: seq<Atom>, f: seq<bool>)
    requires |f| == |ranked|
  {
    exists i, j :: 0 <= i < j && LastCopy(ranked, j) && ranked[i].id == ranked[j].id && f[i] && f[j]
  }

  /** What the table says of a lane of atoms: the record of each last copy, by its flag. */
  ghost predicate AtomsDescribed(t: Table, lane: Lane, ranked: seq<Atom>, f: seq<bool>)
    requires |f| == |ranked|
  {
    && (forall i :: LastCopy(ranked, i) ==>
          && CandidateId(lane, ranked[i].id) in t.at
          && t.at[CandidateId(lane, ranked[i].id)].included == if f[i] then |FormatAtomLine(ranked[i])| else 0)
    && (forall k :: k in t.at && k.lane == lane ==> HasLastCopy(ranked, k.document))
  }

  ghost predicate HasLastCopy(ranked: seq<Atom>, id: string) {
    exists i :: LastCopy(ranked, i) && ranked[i].id == id
  }

  lemma {:induction false} LastCopyFrom(ranked: seq<Atom>, j: nat) returns (i: nat)
    requires j < |ranked|
    ensures LastCopy(ranked, i) && i >= j && ranked[i].id == ranked[j].id
  {
    i := j;
    for n := j + 1 to |ranked|
      invariant j <= i < n && ranked[i].id == ranked[j].id
      invariant forall m :: i < m < n ==> ranked[m].id != ranked[i].id
    {
      if ranked[n].id == ranked[j].id { i := n; }
    }
  }

  lemma AtomRecordMeans(lane: Lane, ranked: seq<Atom>, f: seq<bool>, limit: nat, i: nat)
    requires |f| == |ranked| && i < |ranked|
    ensures var c := AtomRecords(lane, ranked, f, limit)[i];
            && CandidateOk(c) && c.id == CandidateId(lane, ranked[i].id)
            && c.included == if f[i] then |FormatAtomLine(ranked[i])| else 0
  {
  }

  lemma AtomTable(t: Table, lane: Lane, ranked: seq<Atom>, f: seq<bool>, limit: nat)
    requires TableOk(t) && LaneEmpty(t, lane) && |f| == |ranked|
    ensures var r := RecordAll(t, AtomRecords(lane, ranked, f, limit));
            TableOk(r) && OnlyLane(t, r, lane) && AtomsDescribed(r, lane, ranked, f)
  {
    hide AtomRecords, FormatAtomLine, RecordAll, CandidateOk;
    var cs := AtomRecords(lane, ranked, f, limit);
    var r := RecordAll(t, cs);
    forall i | 0 <= i < |cs|
      ensures CandidateOk(cs[i]) && cs[i].id == CandidateId(lane, ranked[i].id)
      ensures cs[i].included == if f[i] then |FormatAtomLine(ranked[i])| else 0
    {
      AtomRecordMeans(lane, ranked, f, limit, i);
    }
    RecordAllOk(t, cs);
    hide TableOk;
    forall i | LastCopy(ranked, i)
      ensures CandidateId(lane, ranked[i].id) in r.at
      ensures r.at[CandidateId(lane, ranked[i].id)].included == if f[i] then |FormatAtomLine(ranked[i])| else 0
    {
      assert LastRecord(cs, i);
      LastRecordStands(t, cs, i);
    }
    forall k: CandidateId | k.lane != lane || !HasLastCopy(ranked, k.document)
      ensures (k in r.at <==> k in t.at) && (k in t.at ==> r.at[k] == t.at[k])
    {
      forall i | 0 <= i < |cs| ensures cs[i].id != k {
        var l := LastCopyFrom(ranked, i);
      }
      OthersStand(t, cs, k);
    }
  }

  function AtomPairs(header: string, kept: seq<Atom>): seq<(string, string)> {
    if kept == [] then [] else [(header, Join(Lines(kept), "\n"))]
  }

  function AtomUnits(header: string, lane: Lane, kept: seq<Atom>): seq<Unit> {
    if kept == [] then [] else [Unit(header, Join(Lines(kept), "\n"), lane, AtomIds(lane, kept))]
  }

  lemma AtomsKnown(t: Table, lane: Lane, ranked: seq<Atom>, f: seq<bool>, i: nat)
    requires |f| == |ranked| && AtomsDescribed(t, lane, ranked, f) && IdsNameAtoms(ranked)
    requires i < |Chosen(ranked, f)|
    ensures var a := Chosen(ranked, f)[i];
            CandidateId(lane, a.id) in t.at && t.at[CandidateId(lane, a.id)].included <= |FormatAtomLine(a)|
  {
    hide FormatAtomLine, Chosen;
    ChosenFrom(ranked, f);
    var a := Chosen(ranked, f)[i];
    assert a in Chosen(ranked, f);
    var j :| TakenAt(ranked, f, a, j);
    var l := LastCopyFrom(ranked, j);
    assert ranked[l] == ranked[j];
  }

  lemma {:induction false} ListSumLines(lane: Lane, kept: seq<Atom>, t: Table)
    requires forall i :: 0 <= i < |kept| ==>
               CandidateId(lane, kept[i].id) in t.at
                   && t.at[CandidateId(lane, kept[i].id)].included <= |FormatAtomLine(kept[i])|
    ensures AllIn(AtomIds(lane, kept), t) && ListSum(AtomIds(lane, kept), t.at) <= Size(Lines(kept))
  {
    hide FormatAtomLine;
    if kept != [] {
      var n := |kept| - 1;
      assert AtomIds(lane, kept)[..n] == AtomIds(lane, kept[..n]) && Lines(kept)[..n] == Lines(kept[..n]);
      ListSumLines(lane, kept[..n], t);
    }
  }

  lemma AtomsListed(t: Table, lane: Lane, ranked: seq<Atom>, f: seq<bool>)
    requires |f| == |ranked| && AtomsDescribed(t, lane, ranked, f)
    ensures forall k :: k in t.at && k.lane == lane && t.at[k].included > 0 ==> k in AtomIds(lane, Chosen(ranked, f))
  {
    hide FormatAtomLine, Chosen;
    var ids := AtomIds(lane, ranked);
    ChosenAtomIds(lane, ranked, f);
    ChosenFrom(ids, f);
    forall k | k in t.at && k.lane == lane && t.at[k].included > 0 ensures k in AtomIds(lane, Chosen(ranked, f)) {
      assert HasLastCopy(ranked, k.document);
      var i :| LastCopy(ranked, i) && ranked[i].id == k.document;
      assert k == CandidateId(lane, ranked[i].id);
      assert TakenAt(ids, f, k, i);
    }
  }

  /** The unit of an atom lane, when its lines fit its budget. */
  lemma AtomUnitReady(t: Table, lane: Lane, header: string, ranked: seq<Atom>, f: seq<bool>)
    requires |f| == |ranked| && AtomsDescribed(t, lane, ranked, f) && IdsNameAtoms(ranked)
    requires Size(Lines(Chosen(ranked, f))) <= Budget(lane)
    ensures LaneReady(t, lane, AtomUnits(header, lane, Chosen(ranked, f)))
  {
    hide Chosen, Join, Size, AtomsDescribed, ListSum, FormatAtomLine, IdsNameAtoms;
    var kept := Chosen(ranked, f);
    AtomsListSum(t, lane, ranked, f);
    AtomsListed(t, lane, ranked, f);
    JoinSize(Lines(kept), "\n");
    if kept != [] { LinesNotEmpty(kept); }
  }

  lemma AtomsListSum(t: Table, lane: Lane, ranked: seq<Atom>, f: seq<bool>)
    requires |f| == |ranked| && AtomsDescribed(t, lane, ranked, f) && IdsNameAtoms(ranked)
    ensures var ids := AtomIds(lane, Chosen(ranked, f));
            AllIn(ids, t) && ListSum(ids, t.at) <= Size(Lines(Chosen(ranked, f)))
  {
    hide Chosen, FormatAtomLine, AtomsDescribed, IdsNameAtoms, Size, ListSum, Lines;
    var kept := Chosen(ranked, f);
    forall i | 0 <= i < |kept|
      ensures CandidateId(lane, kept[i].id) in t.at
              && t.at[CandidateId(lane, kept[i].id)].included <= |FormatAtomLine(kept[i])|
    {
      AtomsKnown(t, lane, ranked, f, i);
    }
    ListSumLines(lane, kept, t);
  }

  lemma LinesNotEmpty(atoms: seq<Atom>)
    requires atoms != []
    ensures Size(Lines(atoms)) > 0
  {
    hide FormatAtomLine;
    assert |Lines(atoms)[|atoms| - 1]| > 0;
  }

  /** A unit of atoms counts an id twice exactly when a repeated atom is taken
      both early and last. */
  lemma AtomsCountedTwice(t: Table, lane: Lane, ranked: seq<Atom>, f: seq<bool>)
    requires |f| == |ranked| && AtomsDescribed(t, lane, ranked, f)
    ensures CountedTwice(AtomIds(lane, Chosen(ranked, f)), t.at) <==> RepeatTaken(ranked, f)
  {
    hide AtomsDescribed, Chosen;
    var listed := AtomIds(lane, Chosen(ranked, f));
    if k :| k in t.at && multiset(listed)[k] >= 2 && t.at[k].included > 0 {
      CountedIsRepeated(t, lane, ranked, f, k);
    }
    if i, j :| 0 <= i < j && LastCopy(ranked, j) && ranked[i].id == ranked[j].id && f[i] && f[j] {
      RepeatedIsCounted(t, lane, ranked, f, i, j);
    }
  }

  lemma CountedIsRepeated(t: Table, lane: Lane, ranked: seq<Atom>, f: seq<bool>, k: CandidateId)
    requires |f| == |ranked| && AtomsDescribed(t, lane, ranked, f)
    requires k in t.at && multiset(AtomIds(lane, Chosen(ranked, f)))[k] >= 2 && t.at[k].included > 0
    ensures RepeatTaken(ranked, f)
  {
    hide FormatAtomLine, Chosen;
    var ids := AtomIds(lane, ranked);
    ChosenAtomIds(lane, ranked, f);
    assert ids[..|ids|] == ids && f[..|f|] == f;
    ChosenCount(ids, f, k, |ids|);
    var j :| j < |ids| && TakenAt(ids, f, k, j) && TakenBelow(ids, f, k, j);
    var i :| i < j && TakenAt(ids, f, k, i);
    var l := LastCopyFrom(ranked, j);
    assert k == CandidateId(lane, ranked[l].id);
  }

  lemma RepeatedIsCounted(t: Table, lane: Lane, ranked: seq<Atom>, f: seq<bool>, i: nat, j: nat)
    requires |f| == |ranked| && AtomsDescribed(t, lane, ranked, f)
    requires i < j && LastCopy(ranked, j) && ranked[i].id == ranked[j].id && f[i] && f[j]
    ensures CountedTwice(AtomIds(lane, Chosen(ranked, f)), t.at)
  {
    hide FormatAtomLine, Chosen;
    var ids := AtomIds(lane, ranked);
    var k := CandidateId(lane, ranked[j].id);
    ChosenAtomIds(lane, ranked, f);
    assert ids[..|ids|] == ids && f[..|f|] == f;
    ChosenCount(ids, f, k, |ids|);
    assert TakenAt(ids, f, k, i) && TakenAt(ids, f, k, j);
    assert TakenBelow(ids, f, k, j);
    assert TakenTwice(ids, f, k, |ids|);
  }

  // ------------------------------------------------------------ working memory

  function WorkingFlags(ranked: seq<Atom>): (f: seq<bool>)
    ensures |f| == |ranked|
  {
    AtomFlags(ranked, MAX_ACTIVE_MEMORY_ATOMS, Budget(Working))
  }

  lemma {:induction false} SpentLess(items: seq<Item>, f: seq<bool>, g: seq<bool>)
    requires |items| == |f| == |g| && forall i :: 0 <= i < |f| ==> (g[i] ==> f[i])
    ensures Spent(items, g) <= Spent(items, f)
  {
    if f != [] {
      var n := |f| - 1;
      SpentLess(items[..n], f[..n], g[..n]);
    }
  }

  /** The lines of a selection, or of a part of it, fit the budget it was made with. */
  lemma LinesFit(ranked: seq<Atom>, limit: nat, budget: nat, g: seq<bool>)
    requires |g| == |ranked| && forall i :: 0 <= i < |g| ==> (g[i] ==> AtomFlags(ranked, limit, budget)[i])
    ensures Total(AtomItems(Chosen(ranked, g))) <= budget
    ensures Size(Lines(Chosen(ranked, g))) <= budget
    ensures |Join(Lines(Chosen(ranked, g)), "\n")| <= budget
  {
    hide Greedy, Chosen, Spent, FormatAtomLine, Size, Join, Total;
    var f := AtomFlags(ranked, limit, budget);
    GreedyFits(AtomItems(ranked), limit, budget);
    SpentLess(AtomItems(ranked), f, g);
    SpentIsSize(AtomItems(ranked), Lines(ranked), g, 1);
    SpentIsTotal(ranked, g);
    ChosenLines(ranked, g);
    JoinSize(Lines(Chosen(ranked, g)), "\n");
  }

  /** The ids of a lane's unit. */
  lemma AtomUnitPairs(header: string, lane: Lane, kept: seq<Atom>)
    ensures Pairs(AtomUnits(header, lane, kept)) == AtomPairs(header, kept)
  {
  }

  lemma UnitShown(header: string, lane: Lane, kept: seq<Atom>)
    ensures var units := AtomUnits(header, lane, kept);
            && (units == [] <==> kept == [])
            && (units != [] ==> exists at :: AtomsAt(units[0].header + "\n" + units[0].body, header, kept, at))
  {
    if kept != [] {
      hide AtomsAt, Join, Lines;
      var at := LinesShown(header, kept);
      var u := AtomUnits(header, lane, kept)[0];
      assert AtomsAt(u.header + "\n" + u.body, header, kept, at);
    }
  }

  /** The working memory of _compile_context. */
  method AddWorking(atoms: seq<Atom>, rank: seq<Atom> -> seq<Atom>, store: CandidateStore)
    returns (units: seq<Unit>, selected: seq<Atom>)
    requires RankOk(rank) && TableOk(store.table) && LaneEmpty(store.table, Working)
    requires IdsNameAtoms(rank(Active(atoms)))
    modifies store
    ensures selected == SelectedAtoms(atoms, rank, MAX_ACTIVE_MEMORY_ATOMS, Budget(Working))
    ensures units == AtomUnits("# Working memory", Working, selected)
    ensures units == [] <==> selected == []
    ensures units != [] ==>
              exists at :: AtomsAt(units[0].header + "\n" + units[0].body, "# Working memory", selected, at)
    ensures TableOk(store.table) && OnlyLane(old(store.table), store.table, Working)
    ensures LaneReady(store.table, Working, units)
    ensures forall u :: u in units ==>
              (CountedTwice(u.ids, store.table.at) <==>
               RepeatTaken(rank(Active(atoms)), WorkingFlags(rank(Active(atoms)))))
    ensures units == [] ==> !RepeatTaken(rank(Active(atoms)), WorkingFlags(rank(Active(atoms))))
  {
    hide RankOk, Active, Chosen, Join, RecordAll, AtomRecords, TableOk, OnlyLane, LaneReady, CountedTwice,
         RepeatTaken, AtomFlags, AtomsDescribed, IdsNameAtoms, AtomsAt;
    ghost var ranked := rank(Active(atoms));
    ghost var f := WorkingFlags(ranked);
    AtomTable(store.table, Working, ranked, f, MAX_ACTIVE_MEMORY_ATOMS);
    selected := InstrumentSelectAtoms(atoms, rank, MAX_ACTIVE_MEMORY_ATOMS, Budget(Working), Working, store);
    LinesFit(ranked, MAX_ACTIVE_MEMORY_ATOMS, Budget(Working), f);
    var lines := SelectAtomBlocks(selected, Budget(Working));
    units := [];
    if lines != [] {
      units := [Unit("# Working memory", Join(lines, "\n"), Working, AtomIds(Working, selected))];
    }
    UnitShown("# Working memory", Working, selected);
    AtomUnitReady(store.table, Working, "# Working memory", ranked, f);
    AtomsCountedTwice(store.table, Working, ranked, f);
    NoneTaken(ranked, f);
  }

  lemma NoneTaken(ranked: seq<Atom>, f: seq<bool>)
    requires |f| == |ranked|
    ensures Chosen(ranked, f) == [] ==> !RepeatTaken(ranked, f)
  {
    ChosenFrom(ranked, f);
    if i, j :| 0 <= i < j && LastCopy(ranked, j) && ranked[i].id == ranked[j].id && f[i] && f[j] {
      assert TakenAt(ranked, f, ranked[j], j);
      assert ranked[j] in Chosen(ranked, f);
    }
  }

  // ------------------------------------------------------------ retrieved evidence

  /** The flags of the retrieved lane, without what working memory already has. */
  function RetrievedFlags(ranked: seq<Atom>, taken: set<string>): (f: seq<bool>)
    ensures |f| == |ranked|
  {
    seq(|ranked|, i requires 0 <= i < |ranked| =>
      AtomFlags(ranked, MAX_RETRIEVED_ATOMS, Budget(Retrieved))[i] && ranked[i].id !in taken)
  }

  function Without(atoms: seq<Atom>, taken: set<string>): seq<Atom> {
    if atoms == [] then []
    else Without(atoms[..|atoms| - 1], taken) + if atoms[|atoms| - 1].id in taken then [] else [atoms[|atoms| - 1]]
  }

  lemma {:induction false} WithoutConcat(a: seq<Atom>, b: seq<Atom>, taken: set<string>)
    requires |b| <= 1
    ensures Without(a + b, taken) == Without(a, taken) + Without(b, taken)
  {
    if b == [] {
      assert a + b == a;
    } else {
      assert (a + b)[..|a|] == a && b[..0] == [];
    }
  }

  lemma {:induction false} ChosenWithout(ranked: seq<Atom>, f: seq<bool>, g: seq<bool>, taken: set<string>)
    requires |ranked| == |f| == |g| && forall i :: 0 <= i < |f| ==> (g[i] <==> f[i] && ranked[i].id !in taken)
    ensures Without(Chosen(ranked, f), taken) == Chosen(ranked, g)
  {
    if ranked != [] {
      var n := |ranked| - 1;
      ChosenWithout(ranked[..n], f[..n], g[..n], taken);
      WithoutConcat(Chosen(ranked[..n], f[..n]), if f[n] then [ranked[n]] else [], taken);
      assert [ranked[n]][..0] == [];
    }
  }

  function DuplicateOf(c: Candidate): Candidate { c.(status := Deduplicated, reason := HigherLane, included := 0) }

  ghost predicate Named(atoms: seq<Atom>, id: string) { exists a :: a in atoms && a.id == id }

  /** The listed atoms of the taken ids are marked as duplicates, nothing else changed. */
  ghost predicate Deduped(before: Table, after: Table, atoms: seq<Atom>, taken: set<string>) {
    && after.keys == before.keys && after.at.Keys == before.at.Keys
    && forall k :: k in before.at ==>
         after.at[k] == if k.lane == Retrieved && k.document in taken && Named(atoms, k.document)
                        then DuplicateOf(before.at[k]) else before.at[k]
  }

  lemma DedupStep(before: Table, t: Table, atoms: seq<Atom>, i: nat, taken: set<string>)
    requires i < |atoms| && Deduped(before, t, atoms[..i], taken)
    requires CandidateId(Retrieved, atoms[i].id) in before.at
    requires forall k :: k in before.at ==> before.at[k].id == k
    ensures var cid := CandidateId(Retrieved, atoms[i].id);
            && cid in t.at
            && Deduped(before, if atoms[i].id in taken then Put(t, DuplicateOf(t.at[cid])) else t,
                       atoms[..i + 1], taken)
  {
    forall id ensures Named(atoms[..i + 1], id) <==> Named(atoms[..i], id) || id == atoms[i].id {
      if Named(atoms[..i], id) {
        var a :| a in atoms[..i] && a.id == id;
        assert a in atoms[..i + 1];
      }
      if id == atoms[i].id { assert atoms[..i + 1][i] in atoms[..i + 1]; }
      if a :| a in atoms[..i + 1] && a.id == id {
        assert a in atoms[..i] || a == atoms[i];
      }
    }
  }

  /** The loop that marks what working memory already has. */
  method Deduplicate(atoms: seq<Atom>, taken: set<string>, store: CandidateStore)
    requires TableOk(store.table)
    requires forall i :: 0 <= i < |atoms| ==> CandidateId(Retrieved, atoms[i].id) in store.table.at
    modifies store
    ensures Deduped(old(store.table), store.table, atoms, taken)
  {
    ghost var before := store.table;
    for i := 0 to |atoms|
      invariant Deduped(before, store.table, atoms[..i], taken)
    {
      DedupStep(before, store.table, atoms, i, taken);
      hide Deduped, TableOk, Named;
      var atom := atoms[i];
      if atom.id in taken {
        var previous := store.table.at[CandidateId(Retrieved, atom.id)];
        store.table := Put(store.table, previous.(status := Deduplicated, reason := HigherLane, included := 0));
      }
    }
    assert atoms[..|atoms|] == atoms;
  }

  /** [a for a in atoms if a.atom_id not in taken] */
  method Untaken(atoms: seq<Atom>, taken: set<string>) returns (r: seq<Atom>)
    ensures r == Without(atoms, taken)
  {
    r := [];
    for i := 0 to |atoms|
      invariant r == Without(atoms[..i], taken)
    {
      assert atoms[..i + 1][..i] == atoms[..i];
      if atoms[i].id !in taken { r := r + [atoms[i]]; }
    }
    assert atoms[..|atoms|] == atoms;
  }

  lemma DedupedTable(before: Table, after: Table, ranked: seq<Atom>, f: seq<bool>, g: seq<bool>, taken: set<string>)
    requires TableOk(before) && |f| == |g| == |ranked| && AtomsDescribed(before, Retrieved, ranked, f)
    requires forall i :: 0 <= i < |f| ==> (g[i] <==> f[i] && ranked[i].id !in taken)
    requires Deduped(before, after, Chosen(ranked, f), taken)
    ensures TableOk(after) && OnlyLane(before, after, Retrieved) && AtomsDescribed(after, Retrieved, ranked, g)
  {
    hide FormatAtomLine, Chosen;
    ChosenFrom(ranked, f);
    forall i | LastCopy(ranked, i)
      ensures CandidateId(Retrieved, ranked[i].id) in after.at
      ensures after.at[CandidateId(Retrieved, ranked[i].id)].included == if g[i] then |FormatAtomLine(ranked[i])| else 0
    {
      assert CandidateId(Retrieved, ranked[i].id) in before.at;
      if f[i] {
        assert TakenAt(ranked, f, ranked[i], i);
        assert ranked[i] in Chosen(ranked, f);
        assert Named(Chosen(ranked, f), ranked[i].id);
      }
    }
    hide AtomsDescribed;
    DedupedOk(before, after, Chosen(ranked, f), taken);
  }

  lemma DedupedOk(before: Table, after: Table, atoms: seq<Atom>, taken: set<string>)
    requires TableOk(before) && Deduped(before, after, atoms, taken)
    ensures TableOk(after) && OnlyLane(before, after, Retrieved)
  {
    forall k | k in after.at ensures after.at[k].id == k && CandidateOk(after.at[k]) {
      assert k in before.at;
    }
  }

  /** The retrieved evidence of _compile_context. */
  method AddRetrieved(atoms: seq<Atom>, rank: seq<Atom> -> seq<Atom>, taken: set<string>, store: CandidateStore)
    returns (units: seq<Unit>)
    requires RankOk(rank) && TableOk(store.table) && LaneEmpty(store.table, Retrieved)
    requires IdsNameAtoms(rank(Active(atoms)))
    modifies store
    ensures var ranked := rank(Active(atoms));
            units == AtomUnits("# Retrieved evidence", Retrieved, Chosen(ranked, RetrievedFlags(ranked, taken)))
    ensures TableOk(store.table) && OnlyLane(old(store.table), store.table, Retrieved)
    ensures LaneReady(store.table, Retrieved, units)
    ensures forall u :: u in units ==>
              (CountedTwice(u.ids, store.table.at) <==>
                 RepeatTaken(rank(Active(atoms)), RetrievedFlags(rank(Active(atoms)), taken)))
    ensures units == [] ==> !RepeatTaken(rank(Active(atoms)), RetrievedFlags(rank(Active(atoms)), taken))
  {
    hide RankOk, Active, Chosen, Join, RecordAll, AtomRecords, TableOk, OnlyLane, LaneReady, CountedTwice,
         RepeatTaken, AtomFlags, AtomsDescribed, IdsNameAtoms, Deduped;
    ghost var ranked := rank(Active(atoms));
    ghost var f := AtomFlags(ranked, MAX_RETRIEVED_ATOMS, Budget(Retrieved));
    ghost var g := RetrievedFlags(ranked, taken);
    ghost var t := store.table;
    AtomTable(t, Retrieved, ranked, f, MAX_RETRIEVED_ATOMS);
    var top := InstrumentSelectAtoms(atoms, rank, MAX_RETRIEVED_ATOMS, Budget(Retrieved), Retrieved, store);
    ghost var recorded := store.table;
    SelectedKnown(recorded, ranked, f);
    Deduplicate(top, taken, store);
    DedupedTable(recorded, store.table, ranked, f, g, taken);
    OnlyLaneTwice(t, recorded, store.table, Retrieved);
    var retrieved := Untaken(top, taken);
    ChosenWithout(ranked, f, g, taken);
    LinesFit(ranked, MAX_RETRIEVED_ATOMS, Budget(Retrieved), g);
    var lines := SelectAtomBlocks(retrieved, Budget(Retrieved));
    units := [];
    if lines != [] {
      units := [Unit("# Retrieved evidence", Join(lines, "\n"), Retrieved, AtomIds(Retrieved, retrieved))];
    }
    AtomUnitReady(store.table, Retrieved, "# Retrieved evidence", ranked, g);
    AtomsCountedTwice(store.table, Retrieved, ranked, g);
    NoneTaken(ranked, g);
  }

  lemma OnlyLaneTwice(a: Table, b: Table, c: Table, lane: Lane)
    requires OnlyLane(a, b, lane) && OnlyLane(b, c, lane)
    ensures OnlyLane(a, c, lane)
  {
  }

  lemma SelectedKnown(t: Table, ranked: seq<Atom>, f: seq<bool>)
    requires |f| == |ranked| && AtomsDescribed(t, Retrieved, ranked, f)
    ensures forall i :: 0 <= i < |Chosen(ranked, f)| ==> CandidateId(Retrieved, Chosen(ranked, f)[i].id) in t.at
  {
    hide Chosen, FormatAtomLine;
    ChosenFrom(ranked, f);
    var top := Chosen(ranked, f);
    forall i | 0 <= i < |top| ensures CandidateId(Retrieved, top[i].id) in t.at {
      assert top[i] in top;
      var j :| TakenAt(ranked, f, top[i], j);
      var l := LastCopyFrom(ranked, j);
    }
  }

  // ------------------------------------------------------------ the whole context

  /** A lane's unit is ready, and lists an accepted id twice exactly when said. */
  ghost predicate LaneDone(t: Table, lane: Lane, us: seq<Unit>, counted: bool) {
    && LaneReady(t, lane, us)
    && (forall u :: u in us ==> (CountedTwice(u.ids, t.at) <==> counted))
    && (us == [] ==> !counted)
  }

  lemma LaneDoneFrame(before: Table, after: Table, changed: Lane, lane: Lane, us: seq<Unit>, counted: bool)
    requires LaneDone(before, lane, us, counted) && OnlyLane(before, after, changed) && lane != changed
    ensures LaneDone(after, lane, us, counted)
  {
    if us != [] {
      var u := us[0];
      forall k | k in u.ids ensures k in after.at && k in before.at && before.at[k] == after.at[k] {
        assert k.lane == lane;
      }
      ListSumSame(u.ids, before.at, after.at);
      assert CountedTwice(u.ids, before.at) <==> CountedTwice(u.ids, after.at) by {
        forall k | multiset(u.ids)[k] >= 2 ensures k in u.ids { assert k in multiset(u.ids); }
      }
      assert us == [u];
    }
  }

  /** [a for a in atoms if a.source.turn_index != exclude_turn_index], all when there is none. */
  function AtomsBut(atoms: seq<Atom>, exclude: Maybe<nat>): (r: seq<Atom>)
    ensures forall a :: a in r <==> a in atoms && !(exclude.Just? && a.turnIndex == exclude.value)
  {
    if atoms == [] then []
    else AtomsBut(atoms[..|atoms| - 1], exclude)
         + if exclude.Just? && atoms[|atoms| - 1].turnIndex == exclude.value then [] else [atoms[|atoms| - 1]]
  }

  function IdSet(atoms: seq<Atom>): set<string> { set a | a in atoms :: a.id }

  /** The ranked atoms both lanes choose from. */
  ghost function Ranked(query: string, turns: seq<Turn>, atoms: seq<Atom>, rank: seq<Atom> -> seq<Atom>): seq<Atom> {
    rank(Active(AtomsBut(atoms, ExcludedIndex(query, turns))))
  }

  ghost function KeptWorking(ranked: seq<Atom>): seq<Atom> { Chosen(ranked, WorkingFlags(ranked)) }

  ghost function EvidenceFlags(ranked: seq<Atom>): (f: seq<bool>)
    ensures |f| == |ranked|
  {
    RetrievedFlags(ranked, IdSet(KeptWorking(ranked)))
  }

  ghost function KeptEvidence(ranked: seq<Atom>): seq<Atom> { Chosen(ranked, EvidenceFlags(ranked)) }

  /** The units above the retrieved evidence, as headers and bodies. */
  ghost function EarlyPairs(query: string, turns: seq<Turn>, ranked: seq<Atom>,
                            split: Splitter): seq<(string, string)> {
    CurrentPairs(query, turns, split) + TailPairs(turns, ExcludedIndex(query, turns))
    + AtomPairs("# Working memory", KeptWorking(ranked))
  }

  ghost function ContextPairs(query: string, turns: seq<Turn>, ranked: seq<Atom>,
                              split: Splitter): seq<(string, string)> {
    EarlyPairs(query, turns, ranked, split) + AtomPairs("# Retrieved evidence", KeptEvidence(ranked))
  }

  /** The retrieved evidence still fits the total budget. */
  ghost predicate EvidenceFits(query: string, turns: seq<Turn>, ranked: seq<Atom>, split: Splitter) {
    FitsAfter(Selected(EarlyPairs(query, turns, ranked, split), TOTAL_BUDGET_CHARS),
              BlockOf("# Retrieved evidence", Join(Lines(KeptEvidence(ranked)), "\n")), TOTAL_BUDGET_CHARS)
  }

  /** When the compilation ends with a manifest instead of an error. */
  ghost predicate CompileOk(query: string, turns: seq<Turn>, ranked: seq<Atom>, split: Splitter) {
    && CurrentOk(query, turns, split)
    && !RepeatTaken(ranked, WorkingFlags(ranked))
    && !(RepeatTaken(ranked, EvidenceFlags(ranked)) && EvidenceFits(query, turns, ranked, split))
  }

  // What units ask for at most.

  function Demand(pairs: seq<(string, string)>): nat {
    if pairs == [] then 0
    else Demand(pairs[..|pairs| - 1]) + |BlockOf(pairs[|pairs| - 1].0, pairs[|pairs| - 1].1)| + |SEPARATOR|
  }

  lemma {:induction false} DemandConcat(a: seq<(string, string)>, b: seq<(string, string)>)
    requires |b| <= 1
    ensures Demand(a + b) == Demand(a) + Demand(b)
  {
    if b == [] {
      assert a + b == a;
    } else {
      assert (a + b)[..|a|] == a && b[..0] == [];
    }
  }

  lemma {:induction false} AllFit(pairs: seq<(string, string)>, total: nat, n: nat)
    requires n <= |pairs| && Demand(pairs[..n]) <= total
    ensures |Join(Selected(pairs[..n], total), SEPARATOR)| <= Demand(pairs[..n])
    ensures n < |pairs| && Demand(pairs[..n + 1]) <= total ==>
              FitsAfter(Selected(pairs[..n], total), BlockOf(pairs[n].0, pairs[n].1), total)
  {
    hide Join, BlockOf;
    if n < |pairs| { assert pairs[..n + 1][..n] == pairs[..n]; }
    if n > 0 {
      assert pairs[..n][..n - 1] == pairs[..n - 1];
      AllFit(pairs, total, n - 1);
      SelectedStep(pairs, total, n - 1);
      JoinStep(Selected(pairs[..n - 1], total), BlockOf(pairs[n - 1].0, pairs[n - 1].1));
    } else {
      EmptyJoin();
    }
  }

  lemma {:induction false} DemandPrefix(pairs: seq<(string, string)>, n: nat)
    requires n <= |pairs|
    ensures Demand(pairs[..n]) <= Demand(pairs)
  {
    if n < |pairs| {
      DemandPrefix(pairs[..|pairs| - 1], n);
      assert pairs[..|pairs| - 1][..n] == pairs[..n];
    } else {
      assert pairs[..n] == pairs;
    }
  }

  lemma OneDemand(header: string, body: string)
    ensures Demand([(header, body)]) <= |header| + |body| + 3
  {
    assert [(header, body)][..0] == [];
  }

  /** The three upper lanes never ask for more than the total budget. */
  lemma EarlyDemand(query: string, turns: seq<Turn>, ranked: seq<Atom>, split: Splitter)
    ensures Demand(EarlyPairs(query, turns, ranked, split)) <= TOTAL_BUDGET_CHARS
  {
    hide Demand, Join, Blocks, Lines, Chosen, TailBlocks, CurrentBody, KeptTurns, TailFlags, WorkingFlags;
    var exclude := ExcludedIndex(query, turns);
    var c, r, w := CurrentPairs(query, turns, split), TailPairs(turns, exclude),
        AtomPairs("# Working memory", KeptWorking(ranked));
    DemandConcat(c + r, w);
    DemandConcat(c, r);
    TailBlocksAreKept(turns, exclude);
    WorkingLinesFit(ranked);
    CurrentBodyFits(query, turns, split);
    NoDemand();
    if c != [] { OneDemand(c[0].0, c[0].1); assert c == [(c[0].0, c[0].1)]; }
    if r != [] { OneDemand(r[0].0, r[0].1); assert r == [(r[0].0, r[0].1)]; }
    if w != [] { OneDemand(w[0].0, w[0].1); assert w == [(w[0].0, w[0].1)]; }
  }

  lemma NoDemand()
    ensures Demand([]) == 0
  {
  }

  lemma WorkingLinesFit(ranked: seq<Atom>)
    ensures |Join(Lines(KeptWorking(ranked)), "\n")| <= Budget(Working)
  {
    LinesFit(ranked, MAX_ACTIVE_MEMORY_ATOMS, Budget(Working), WorkingFlags(ranked));
  }

  lemma CurrentBodyFits(query: string, turns: seq<Turn>, split: Splitter)
    ensures CurrentBody(query, turns, split).Just? ==> |CurrentBody(query, turns, split).value| <= Budget(Current)
  {
    hide KeptText;
  }

  // ------------------------------------------------------------ what is selected

  /** The characters of the marked turns behind the i-th, as they are shown, with two for
      each separator. */
  ghost function LaterCost(turns: seq<Turn>, f: seq<bool>, i: nat): nat
    requires |f| == |turns| && i < |turns|
    decreases |turns| - i
  {
    if i + 1 == |turns| then 0
    else
      var t := turns[i + 1];
      LaterCost(turns, f, i + 1)
      + if f[i + 1]
        then |"[turn_id: " + t.id + " turn_index: " + Decimal(t.index) + " speaker_alias: " + t.alias + "]\n"
              + t.text| + 2
        else 0
  }

  lemma {:induction false} SpentIsLater(turns: seq<Turn>, exclude: Maybe<nat>, f: seq<bool>, i: nat)
    requires |f| == |turns| && i < |turns|
    ensures var p := |turns| - 1 - i;
            Spent(TailItems(turns, exclude)[..p], f[..p]) == LaterCost(turns, Reversed(f), i)
    decreases |turns| - i
  {
    hide FormatTurnBlock, Reversed;
    var p := |turns| - 1 - i;
    if p > 0 {
      SpentIsLater(turns, exclude, f, i + 1);
      var items := TailItems(turns, exclude);
      assert f[..p] == f[..p - 1] + [f[p - 1]];
      SpentStep(items, f[..p - 1], p - 1, f[p - 1]);
      BlockSize(turns[i + 1]);
    }
  }

  /** From the newest turn back, a turn is kept exactly when it is not the current one and
      fits into 3600 characters beside the later ones that are kept. */
  lemma TailTakes(turns: seq<Turn>, exclude: Maybe<nat>, i: nat)
    requires i < |turns|
    ensures var f, t := Reversed(TailFlags(turns, Budget(Recent), exclude)), turns[i];
            && KeptTurns(turns, exclude) == Chosen(turns, f)
            && (f[i] <==>
                exclude != Just(t.index)
                && LaterCost(turns, f, i)
                   + |"[turn_id: " + t.id + " turn_index: " + Decimal(t.index) + " speaker_alias: " + t.alias + "]\n"
                      + t.text| + 2 <= 3600)
  {
    hide FormatTurnBlock, Greedy, Spent, LaterCost, TailItems, Chosen, Taken, Decimal;
    var f, p := TailFlags(turns, Budget(Recent), exclude), |turns| - 1 - i;
    var items := TailItems(turns, exclude);
    TailStep(turns, Budget(Recent), exclude, p);
    GreedyPrefix(items, |turns|, Budget(Recent), p);
    assert f[..p] == Greedy(items[..p], |turns|, Budget(Recent));
    SpentIsLater(turns, exclude, f, i);
    TailItemAt(turns, exclude, p);
    BlockSize(turns[i]);
    assert Reversed(f)[i] == f[p];
  }

  /** The record of a turn: shown by a higher lane, accepted whole, or over the budget. */
  lemma TailRecorded(t: Table, turns: seq<Turn>, exclude: Maybe<nat>, i: nat)
    requires TurnsOk(turns) && i < |turns|
    ensures var f, id := TailFlags(turns, Budget(Recent), exclude), CandidateId(Recent, turns[i].id);
            var at := RecordAll(t, TailRecords(turns, exclude, f)).at;
            && id in at && at[id].charCount == |FormatTurnBlock(turns[i])|
            && if exclude == Just(turns[i].index) then
                 at[id].status == Deduplicated && at[id].reason == HigherLane && at[id].included == 0
               else if Reversed(f)[i] then
                 at[id].status == Accepted && at[id].reason == WithinBudget && at[id].included == at[id].charCount
               else at[id].status == Rejected && at[id].reason == BudgetLimit && at[id].included == 0
  {
    hide RecordAll, TailRecords, TailFlags, FormatTurnBlock, Reversed, TurnsOk;
    TailEntry(t, turns, exclude, i);
    assert TurnIds(turns)[i] == CandidateId(Recent, turns[i].id);
  }

  /** The record of an atom: accepted whole, one too many, or over the budget. */
  lemma AtomRecorded(t: Table, lane: Lane, ranked: seq<Atom>, f: seq<bool>, limit: nat, i: nat)
    requires |f| == |ranked| && LastCopy(ranked, i)
    ensures var id, at := CandidateId(lane, ranked[i].id), RecordAll(t, AtomRecords(lane, ranked, f, limit)).at;
            && id in at && at[id].charCount == |FormatAtomLine(ranked[i])|
            && if f[i] then
                 at[id].status == Accepted && at[id].reason == WithinBudget && at[id].included == at[id].charCount
               else at[id].status == Rejected && at[id].included == 0
                    && at[id].reason == if Taken(f[..i]) >= limit then LowPriority else BudgetLimit
  {
    hide RecordAll, FormatAtomLine, Taken;
    var cs := AtomRecords(lane, ranked, f, limit);
    AtomRecordAt(lane, ranked, f, limit, i);
    forall j | i < j < |cs| ensures cs[j].id != cs[i].id {
      AtomRecordAt(lane, ranked, f, limit, j);
    }
    assert LastRecord(cs, i);
    LastRecordStands(t, cs, i);
  }

  /** The characters of the marked atoms before the i-th, as they are shown, with one for each
      line break. */
  ghost function EarlierCost(ranked: seq<Atom>, f: seq<bool>, i: nat): nat
    requires |f| == |ranked| && i <= |ranked|
  {
    if i == 0 then 0
    else
      var a := ranked[i - 1];
      EarlierCost(ranked, f, i - 1)
      + if f[i - 1] then |"- (" + a.kind + ") " + a.canonical + " [" + a.quote + "]"| + 1 else 0
  }

  lemma {:induction false} SpentIsEarlier(ranked: seq<Atom>, f: seq<bool>, i: nat)
    requires |f| == |ranked| && i <= |ranked|
    ensures Spent(AtomItems(ranked)[..i], f[..i]) == EarlierCost(ranked, f, i)
  {
    hide FormatAtomLine;
    if i > 0 {
      SpentIsEarlier(ranked, f, i - 1);
      assert f[..i] == f[..i - 1] + [f[i - 1]];
      SpentStep(AtomItems(ranked), f[..i - 1], i - 1, f[i - 1]);
      LineText(ranked[i - 1]);
    }
  }

  /** Both atom lanes take the atoms in rank order, as many and as long as fit. */
  lemma AtomTakes(ranked: seq<Atom>, limit: nat, budget: nat, i: nat)
    requires i < |ranked|
    ensures var f, a := AtomFlags(ranked, limit, budget), ranked[i];
            f[i] <==> Taken(f[..i]) < limit
                      && EarlierCost(ranked, f, i) + |"- (" + a.kind + ") " + a.canonical + " [" + a.quote + "]"| + 1
                         <= budget
  {
    hide FormatAtomLine, Greedy, Spent, EarlierCost;
    AtomStep(ranked, limit, budget, i);
    SpentIsEarlier(ranked, AtomFlags(ranked, limit, budget), i);
    LineText(ranked[i]);
  }

  /** Working memory has 24 atoms in 4000 characters; evidence is what 8 atoms in 2000 hold
      beyond those that working memory shows. */
  lemma LaneTakes(ranked: seq<Atom>, i: nat)
    requires i < |ranked|
    ensures KeptWorking(ranked) == Chosen(ranked, AtomFlags(ranked, 24, 4000))
    ensures KeptEvidence(ranked) == Chosen(ranked, EvidenceFlags(ranked))
    ensures EvidenceFlags(ranked)[i] <==>
            AtomFlags(ranked, 8, 2000)[i] && forall a :: a in KeptWorking(ranked) ==> a.id != ranked[i].id
  {
    hide AtomFlags, Chosen;
  }

  /** When the current section shows the last turn, it is not shown again among the recent
      ones, and no atom taken from it is shown. */
  lemma CurrentNotRepeated(query: string, turns: seq<Turn>, atoms: seq<Atom>, rank: seq<Atom> -> seq<Atom>)
    requires RankOk(rank) && query != "" && turns != []
    requires var t := turns[|turns| - 1]; t.fromCandidate && t.text == query
    ensures var index := turns[|turns| - 1].index;
            && (forall t :: t in KeptTurns(turns, ExcludedIndex(query, turns)) ==> t.index != index)
            && forall a :: a in Ranked(query, turns, atoms, rank) ==> a.turnIndex != index && a in atoms && a.active
  {
    hide RankOk;
    var index := turns[|turns| - 1].index;
    var exclude := ExcludedIndex(query, turns);
    assert exclude == Just(index);
    var f := Reversed(TailFlags(turns, Budget(Recent), exclude));
    ChosenFrom(turns, f);
    forall t | t in KeptTurns(turns, exclude) ensures t.index != index {
      var i :| TakenAt(turns, f, t, i);
      TailTakes(turns, exclude, i);
    }
    RankedActive(AtomsBut(atoms, exclude), rank);
    var ranked := Ranked(query, turns, atoms, rank);
    forall a | a in ranked ensures a.turnIndex != index && a in atoms && a.active {
      var i :| 0 <= i < |ranked| && ranked[i] == a;
    }
  }

  /** When it does not, every turn may be shown and every active atom. */
  lemma NothingExcluded(query: string, turns: seq<Turn>, atoms: seq<Atom>, rank: seq<Atom> -> seq<Atom>)
    requires RankOk(rank)
    requires query == "" || turns == [] || !turns[|turns| - 1].fromCandidate || turns[|turns| - 1].text != query
    ensures ExcludedIndex(query, turns) == Nothing
    ensures forall a :: a in Ranked(query, turns, atoms, rank) <==> a in atoms && a.active
  {
    var left := AtomsBut(atoms, Nothing);
    var ranked := rank(Active(left));
    assert multiset(ranked) == multiset(Active(left));
    hide RankOk;
    forall a ensures a in ranked <==> a in atoms && a.active {
      assert a in ranked <==> a in multiset(ranked);
      assert a in Active(left) <==> a in multiset(Active(left));
    }
  }

  // ------------------------------------------------------------ what the text shows

  lemma {:induction false} ConcatIsJoin(parts: seq<string>)
    ensures Concat(parts) == Join(parts, "")
  {
    if |parts| > 1 {
      ConcatIsJoin(parts[..|parts| - 1]);
    } else if |parts| == 1 {
      assert parts[..0] == [];
    }
  }

  /** What is kept of a text is its leading sentences, or its first characters. */
  lemma KeptIsCut(body: string, room: int, split: Splitter)
    requires 0 < room < |body|
    ensures Cut(body, room, split(body), KeptText(body, room, split))
  {
    hide Concat, Join, Size;
    var parts := split(body);
    SizeStep(parts, 0);
    var k := FitFrom(parts, 0, room);
    var kept := KeptText(body, room, split);
    if k > 0 {
      ConcatIsJoin(parts[..k]);
      var at := JoinPlaced(parts[..k], "");
      assert Placed(kept, parts[..k], "", at);
    }
    assert CutBehind(body, room, parts, kept, k);
  }

  /** The first section of a context. */
  function CurrentBlock(query: string, turns: seq<Turn>, split: Splitter): string
    requires query != "" && CurrentBody(query, turns, split).Just?
  {
    BlockOf(if IsLastTurn(query, turns) then "# Current turn" else "# Current query",
            CurrentBody(query, turns, split).value)
  }

  lemma CurrentTurnShown(query: string, turns: seq<Turn>, split: Splitter)
    requires query != "" && IsLastTurn(query, turns) && CurrentBody(query, turns, split).Just?
    ensures var block := CurrentBlock(query, turns, split); CurrentTo(block, query, turns, split, |block|)
  {
    hide KeptText, Cut, StartsWith, Header;
    var t := turns[|turns| - 1];
    var room, block := TextRoom(t, Budget(Current)), CurrentBlock(query, turns, split);
    var head := "# Current turn\n" + (Header(t) + "\n");
    assert "# Current turn" + "\n" == "# Current turn\n";
    if |t.text| <= room {
      assert block == head + t.text;
      StartsWhole(head, t.text, room, room, split(query), TURN_MARKER, block);
    } else {
      KeptIsCut(t.text, room, split);
      assert block == head + KeptText(t.text, room, split) + TURN_MARKER;
      StartsKept(head, t.text, room, room, split(query), TURN_MARKER, block, KeptText(t.text, room, split));
    }
    TurnStarts(block, t, room, split(query));
  }

  lemma TurnStarts(text: string, t: Turn, room: int, sentences: seq<string>)
    requires room == TextRoom(t, Budget(Current))
    requires StartsWith(text, "# Current turn\n" + (Header(t) + "\n"), t.text, room, room, sentences, TURN_MARKER,
                        |text|)
    ensures TurnTo(text, t, sentences, |text|)
  {
    hide StartsWith;
    var head := "[turn_id: " + t.id + " turn_index: " + Decimal(t.index) + " speaker_alias: " + t.alias + "]\n";
    assert Header(t) + "\n" == head;
    assert |TURN_MARKER| == 32;
  }

  lemma StartsWhole(head: string, body: string, limit: int, room: int, sentences: seq<string>, marker: string,
                    text: string)
    requires |body| <= limit && text == head + body
    ensures StartsWith(text, head, body, limit, room, sentences, marker, |text|)
  {
  }

  lemma StartsKept(head: string, body: string, limit: int, room: int, sentences: seq<string>, marker: string,
                   text: string, kept: string)
    requires |body| > limit && Cut(body, room, sentences, kept) && text == head + kept + marker
    ensures StartsWith(text, head, body, limit, room, sentences, marker, |text|)
  {
    assert Starts(text, head + kept + marker, |text|);
  }

  lemma CurrentQueryShown(query: string, turns: seq<Turn>, split: Splitter)
    requires query != "" && !IsLastTurn(query, turns) && CurrentBody(query, turns, split).Just?
    ensures var block := CurrentBlock(query, turns, split); CurrentTo(block, query, turns, split, |block|)
  {
    hide KeptText, Cut;
    var room, block := Budget(Current) - |QUERY_MARKER|, CurrentBlock(query, turns, split);
    assert "# Current query" + "\n" == "# Current query\n";
    if |query| <= Budget(Current) {
      StartsWhole("# Current query\n", query, 2400, room, split(query), QUERY_MARKER, block);
    } else {
      KeptIsCut(query, room, split);
      StartsKept("# Current query\n", query, 2400, room, split(query), QUERY_MARKER, block,
                 KeptText(query, room, split));
    }
  }

  /** Units that ask for no more than the total are selected one after the other. */
  ghost function BlocksOf(pairs: seq<(string, string)>): (r: seq<string>)
    ensures |r| == |pairs|
  {
    seq(|pairs|, i requires 0 <= i < |pairs| => BlockOf(pairs[i].0, pairs[i].1))
  }

  lemma {:induction false} AllAreSelected(pairs: seq<(string, string)>, total: nat, n: nat)
    requires n <= |pairs| && Demand(pairs) <= total && forall i :: 0 <= i < |pairs| ==> pairs[i].1 != ""
    ensures Selected(pairs[..n], total) == BlocksOf(pairs)[..n]
  {
    hide Join, BlockOf, FitsAfter, Demand, Selected;
    if n > 0 {
      AllAreSelected(pairs, total, n - 1);
      SelectedStep(pairs, total, n - 1);
      DemandPrefix(pairs, n - 1);
      DemandPrefix(pairs, n);
      AllFit(pairs, total, n - 1);
    } else {
      NothingSelected(pairs, total);
    }
  }

  lemma {:induction false} JoinNotEmpty(parts: seq<string>, separator: string)
    requires parts != [] && parts[|parts| - 1] != ""
    ensures Join(parts, separator) != ""
  {
  }

  lemma CurrentSection(query: string, turns: seq<Turn>, split: Splitter) returns (cuts: Cuts)
    requires CurrentOk(query, turns, split)
    ensures var c := CurrentPairs(query, turns, split);
            && (forall i :: 0 <= i < |c| ==> c[i].1 != "") && |c| <= 1
            && Layout(Join(BlocksOf(c), SEPARATOR), query, turns, split, [], [], [], cuts)
  {
    hide CurrentTo, KeptText;
    var c := CurrentPairs(query, turns, split);
    var text := Join(BlocksOf(c), SEPARATOR);
    if query != "" {
      CurrentBodyThere(query, turns, split);
      assert text == CurrentBlock(query, turns, split);
      if IsLastTurn(query, turns) {
        CurrentTurnShown(query, turns, split);
      } else {
        CurrentQueryShown(query, turns, split);
      }
    } else {
      NoQuery(text, turns, split);
    }
    cuts := Cuts(|text|, [], [], []);
  }

  lemma NoQuery(text: string, turns: seq<Turn>, split: Splitter)
    ensures CurrentTo(text, "", turns, split, 0)
  {
  }

  lemma CurrentBodyThere(query: string, turns: seq<Turn>, split: Splitter)
    requires CurrentOk(query, turns, split) && query != ""
    ensures CurrentBody(query, turns, split).Just? && CurrentBody(query, turns, split).value != ""
  {
    hide KeptText;
    if IsLastTurn(query, turns) {
      assert |Header(turns[|turns| - 1])| > 0;
    }
  }

  /** A section that is not there adds nothing, one that is there follows. */
  lemma SectionJoined(selected: seq<string>, pairs: seq<(string, string)>)
    requires |pairs| <= 1 && forall i :: 0 <= i < |pairs| ==> pairs[i].1 != ""
    requires selected == [] || Join(selected, SEPARATOR) != ""
    ensures var text, longer := Join(selected, SEPARATOR), Join(selected + BlocksOf(pairs), SEPARATOR);
            && longer == (if pairs == [] then text else Extended(text, BlockOf(pairs[0].0, pairs[0].1)))
            && (selected + BlocksOf(pairs) == [] || longer != "")
  {
    hide Join;
    if pairs == [] {
      assert selected + BlocksOf(pairs) == selected;
    } else {
      assert BlocksOf(pairs) == [BlockOf(pairs[0].0, pairs[0].1)];
      JoinExtended(selected, BlockOf(pairs[0].0, pairs[0].1));
      BlockThere(pairs[0].0, pairs[0].1);
    }
  }

  lemma BlockThere(header: string, body: string)
    requires body != ""
    ensures BlockOf(header, body) != ""
  {
    assert |BlockOf(header, body)| >= |body|;
  }

  lemma TailSection(turns: seq<Turn>, exclude: Maybe<nat>)
    ensures var r, kept := TailPairs(turns, exclude), KeptTurns(turns, exclude);
            && (forall i :: 0 <= i < |r| ==> r[i].1 != "") && |r| <= 1 && (r == [] <==> kept == [])
            && (kept != [] ==>
                  BlockOf(r[0].0, r[0].1) == "# Recent transcript" + "\n" + Join(Blocks(kept), SEPARATOR))
  {
    hide TailBlocks, KeptTurns, Join, FormatTurnBlock, Size;
    TailBlocksAreKept(turns, exclude);
    var kept := KeptTurns(turns, exclude);
    JoinSize(Blocks(kept), SEPARATOR);
    if kept != [] {
      BlocksNotEmpty(kept);
      assert "# Recent transcript" != "";
    }
  }

  lemma AtomSection(header: string, kept: seq<Atom>)
    requires header != ""
    ensures var w := AtomPairs(header, kept);
            && (forall i :: 0 <= i < |w| ==> w[i].1 != "") && |w| <= 1 && (w == [] <==> kept == [])
            && (kept != [] ==> BlockOf(w[0].0, w[0].1) == header + "\n" + Join(Lines(kept), "\n"))
  {
    hide Join, FormatAtomLine, Size;
    JoinSize(Lines(kept), "\n");
    if kept != [] { LinesNotEmpty(kept); }
  }

  lemma BlocksOfConcat(a: seq<(string, string)>, b: seq<(string, string)>)
    ensures BlocksOf(a + b) == BlocksOf(a) + BlocksOf(b)
  {
  }

  /** The current turn or query, the recent turns and the atoms of working memory. */
  lemma EarlySections(query: string, turns: seq<Turn>, ranked: seq<Atom>, split: Splitter) returns (cuts: Cuts)
    requires CurrentOk(query, turns, split)
    ensures var selected := Selected(EarlyPairs(query, turns, ranked, split), TOTAL_BUDGET_CHARS);
            && (selected == [] || Join(selected, SEPARATOR) != "")
            && Layout(Join(selected, SEPARATOR), query, turns, split, KeptTurns(turns, ExcludedIndex(query, turns)),
                      KeptWorking(ranked), [], cuts)
  {
    hide Layout, CurrentPairs, TailPairs, AtomPairs, KeptTurns, KeptWorking, Selected, Join, Blocks, Lines, CurrentOk,
         BlockOf, BlocksOf, Demand;
    var exclude := ExcludedIndex(query, turns);
    var recent, working := KeptTurns(turns, exclude), KeptWorking(ranked);
    var c, r, w := CurrentPairs(query, turns, split), TailPairs(turns, exclude),
        AtomPairs("# Working memory", working);
    cuts := CurrentSection(query, turns, split);
    TailSection(turns, exclude);
    assert "# Working memory" != "";
    AtomSection("# Working memory", working);
    EarlyDemand(query, turns, ranked, split);
    var pairs := EarlyPairs(query, turns, ranked, split);
    AllAreSelected(pairs, TOTAL_BUDGET_CHARS, |pairs|);
    assert pairs[..|pairs|] == pairs && BlocksOf(pairs)[..|pairs|] == BlocksOf(pairs);
    BlocksOfConcat(c + r, w);
    BlocksOfConcat(c, r);
    NothingJoined();
    SectionJoined([], c);
    assert [] + BlocksOf(c) == BlocksOf(c);
    SectionJoined(BlocksOf(c), r);
    SectionJoined(BlocksOf(c) + BlocksOf(r), w);
    if recent != [] {
      cuts := AddTranscript(Join(BlocksOf(c), SEPARATOR), query, turns, split, recent, cuts);
    }
    if working != [] {
      cuts := AddWorkingLines(Join(BlocksOf(c) + BlocksOf(r), SEPARATOR), query, turns, split, recent, working, cuts);
    }
  }

  lemma NothingJoined()
    ensures Join([], SEPARATOR) == ""
  {
  }

  lemma {:induction false} LinesCost(atoms: seq<Atom>)
    ensures Size(Lines(atoms)) + |atoms| == LineCost(atoms)
  {
    hide FormatAtomLine;
    if atoms != [] {
      LinesCost(atoms[..|atoms| - 1]);
      assert Lines(atoms)[..|atoms| - 1] == Lines(atoms[..|atoms| - 1]);
    }
  }

  /** The evidence is left out because it does not fit beside the rest. */
  ghost predicate LeftOut(context: string, evidence: seq<Atom>) {
    |context| + (if context == "" then 0 else 2) + 20 + LineCost(evidence) > 12000
  }

  /** What a compiled context shows: the current turn or query, the kept turns, the atoms of
      working memory and those of the evidence, unless that does not fit the total. */
  ghost predicate Shows(context: string, query: string, turns: seq<Turn>, ranked: seq<Atom>, split: Splitter) {
    exists evidence, cuts ::
      && Layout(context, query, turns, split, KeptTurns(turns, ExcludedIndex(query, turns)), KeptWorking(ranked),
                evidence, cuts)
      && (evidence == KeptEvidence(ranked) || (evidence == [] && LeftOut(context, KeptEvidence(ranked))))
  }

  lemma EvidenceSize(text: string, selected: seq<string>, evidence: seq<Atom>)
    requires evidence != [] && text == Join(selected, SEPARATOR) && (selected == [] || text != "")
    ensures FitsAfter(selected, BlockOf("# Retrieved evidence", Join(Lines(evidence), "\n")), TOTAL_BUDGET_CHARS) <==>
            !LeftOut(text, evidence)
  {
    hide Join, Size, LineCost, Lines;
    LinesCost(evidence);
    JoinSize(Lines(evidence), "\n");
    NothingJoined();
    LinesThere(evidence);
    assert |"# Retrieved evidence"| == 20;
  }

  lemma LinesThere(atoms: seq<Atom>)
    ensures |Lines(atoms)| == |atoms|
  {
  }

  lemma ContextSections(query: string, turns: seq<Turn>, ranked: seq<Atom>, split: Splitter)
    requires CurrentOk(query, turns, split)
    ensures Shows(Assembled(ContextPairs(query, turns, ranked, split), TOTAL_BUDGET_CHARS), query, turns, ranked, split)
  {
    hide Layout, KeptTurns, KeptWorking, KeptEvidence, Selected, Join, Lines, CurrentOk, BlockOf, FitsAfter, LeftOut,
         EarlyPairs, LineCost, BlocksOf, AtomPairs;
    var early, evidence := EarlyPairs(query, turns, ranked, split), KeptEvidence(ranked);
    var recent, working := KeptTurns(turns, ExcludedIndex(query, turns)), KeptWorking(ranked);
    var pairs, v := ContextPairs(query, turns, ranked, split), AtomPairs("# Retrieved evidence", evidence);
    var cuts := EarlySections(query, turns, ranked, split);
    var selected := Selected(early, TOTAL_BUDGET_CHARS);
    var text := Join(selected, SEPARATOR);
    assert "# Retrieved evidence" != "";
    AtomSection("# Retrieved evidence", evidence);
    assert pairs == early + v;
    if evidence == [] {
      assert pairs == early;
      assert Layout(text, query, turns, split, recent, working, evidence, cuts);
    } else {
      LastSelected(early, v, TOTAL_BUDGET_CHARS);
      EvidencePair(evidence);
      EvidenceSize(text, selected, evidence);
      if LeftOut(text, evidence) {
        assert Layout(text, query, turns, split, recent, working, [], cuts);
      } else {
        JoinExtended(selected, BlockOf(v[0].0, v[0].1));
        cuts := AddEvidenceLines(text, query, turns, split, recent, working, evidence, cuts);
      }
    }
  }

  lemma EvidencePair(evidence: seq<Atom>)
    requires evidence != []
    ensures AtomPairs("# Retrieved evidence", evidence) == [("# Retrieved evidence", Join(Lines(evidence), "\n"))]
  {
  }

  lemma LastSelected(early: seq<(string, string)>, last: seq<(string, string)>, total: nat)
    requires |last| == 1 && last[0].1 != ""
    ensures var before, block := Selected(early, total), BlockOf(last[0].0, last[0].1);
            Selected(early + last, total) == if FitsAfter(before, block, total) then before + [block] else before
  {
    var pairs := early + last;
    assert pairs[..|early|] == early && pairs[..|early| + 1] == pairs;
    SelectedStep(pairs, total, |early|);
  }

  lemma NothingSelected(pairs: seq<(string, string)>, total: nat)
    ensures Selected(pairs[..0], total) == []
  {
  }

  // ------------------------------------------------------------ _compile_context

  /** Units of four ready lanes describe the whole table. */
  lemma LanesTogether(t: Table, c: seq<Unit>, r: seq<Unit>, w: seq<Unit>, v: seq<Unit>)
    requires TableOk(t)
    requires LaneReady(t, Current, c) && LaneReady(t, Recent, r) && LaneReady(t, Working, w)
             && LaneReady(t, Retrieved, v)
    ensures UnitsOk(c + r + w + v, t)
  {
    hide UnitOk, TableOk;
    var units := c + r + w + v;
    forall i | 0 <= i < |units|
      ensures UnitOk(units[i], t) && (units[i] in c || units[i] in r || units[i] in w || units[i] in v)
    {
    }
    forall k | k in t.at && t.at[k].included > 0 ensures Lists(units, k) {
      match k.lane {
        case Current => assert units[0] == c[0];
        case Recent => assert units[|c|] == r[0];
        case Working => assert units[|c| + |r|] == w[0];
        case Retrieved => assert units[|c| + |r| + |w|] == v[0];
      }
    }
  }

  /** Every early unit fits, so only working memory and evidence can count twice. */
  lemma WhoCountsTwice(t: Table, upper: seq<Unit>, w: seq<Unit>, v: seq<Unit>, wCounted: bool, vCounted: bool)
    requires LaneDone(t, Working, w, wCounted) && LaneDone(t, Retrieved, v, vCounted)
    requires forall i :: 0 <= i < |upper| ==> upper[i].body != "" && !CountedTwice(upper[i].ids, t.at)
    requires Demand(Pairs(upper + w)) <= TOTAL_BUDGET_CHARS
    ensures CountsTwice(upper + w + v, TOTAL_BUDGET_CHARS, t) <==>
            wCounted || (vCounted
                         && FitsAfter(Selected(Pairs(upper + w), TOTAL_BUDGET_CHARS), BlockOf(v[0].header, v[0].body),
                                      TOTAL_BUDGET_CHARS))
  {
    hide CountedTwice, Demand, BlockOf, FitsAfter, Selected, ListSum;
    var early := upper + w;
    var units, total, n := early + v, TOTAL_BUDGET_CHARS, |early|;
    forall k | 0 <= k < n ensures Fits(units, k, total) {
      assert Pairs(units[..k]) == Pairs(early)[..k];
      DemandPrefix(Pairs(early), k);
      DemandPrefix(Pairs(early), k + 1);
      AllFit(Pairs(early), total, k);
    }
    assert Pairs(units[..n]) == Pairs(early);
    if w != [] { assert units[n - 1] == w[0]; }
    if v != [] { assert units[n] == v[0]; }
  }

  /** The four lanes of one compilation, ready in the table t. */
  ghost predicate Staged(query: string, turns: seq<Turn>, ranked: seq<Atom>, split: Splitter,
                         t: Table, c: seq<Unit>, r: seq<Unit>, w: seq<Unit>, v: seq<Unit>) {
    && TableOk(t)
    && LaneDone(t, Current, c, false) && Pairs(c) == CurrentPairs(query, turns, split)
    && LaneDone(t, Recent, r, false) && Pairs(r) == TailPairs(turns, ExcludedIndex(query, turns))
    && LaneDone(t, Working, w, RepeatTaken(ranked, WorkingFlags(ranked)))
    && w == AtomUnits("# Working memory", Working, KeptWorking(ranked))
    && LaneDone(t, Retrieved, v, RepeatTaken(ranked, EvidenceFlags(ranked)))
    && v == AtomUnits("# Retrieved evidence", Retrieved, KeptEvidence(ranked))
  }

  lemma PairsConcat(a: seq<Unit>, b: seq<Unit>)
    ensures Pairs(a + b) == Pairs(a) + Pairs(b)
  {
  }

  lemma StagedPairs(query: string, turns: seq<Turn>, ranked: seq<Atom>, split: Splitter,
                    t: Table, c: seq<Unit>, r: seq<Unit>, w: seq<Unit>, v: seq<Unit>)
    requires Staged(query, turns, ranked, split, t, c, r, w, v)
    ensures Pairs(c + r + w) == EarlyPairs(query, turns, ranked, split)
    ensures Pairs(c + r + w + v) == ContextPairs(query, turns, ranked, split)
  {
    hide LaneDone, CurrentPairs, TailPairs, AtomUnits, AtomPairs, KeptWorking, KeptEvidence, Pairs, TableOk;
    PairsConcat(c, r);
    PairsConcat(c + r, w);
    PairsConcat(c + r + w, v);
    AtomUnitPairs("# Working memory", Working, KeptWorking(ranked));
    AtomUnitPairs("# Retrieved evidence", Retrieved, KeptEvidence(ranked));
  }

  /** The manifest of staged lanes is accepted exactly when nothing is counted twice. */
  lemma StagedAccepted(query: string, turns: seq<Turn>, ranked: seq<Atom>, split: Splitter,
                       t: Table, c: seq<Unit>, r: seq<Unit>, w: seq<Unit>, v: seq<Unit>)
    requires Staged(query, turns, ranked, split, t, c, r, w, v) && CurrentOk(query, turns, split)
    ensures var units := c + r + w + v;
            IdsKnown(units, t) && (ManifestOk(ManifestOf(units, t)) <==> CompileOk(query, turns, ranked, split))
  {
    hide LaneReady, CountedTwice, TableOk, RepeatTaken, CurrentOk, ManifestOf, ManifestOk, CountsTwice, FitsAfter,
         EarlyPairs, ContextPairs, Selected, BlockOf, KeptEvidence, KeptWorking, EvidenceFlags, WorkingFlags, Join,
         UnitsOk, IdsKnown, Demand, Pairs, CurrentPairs, TailPairs;
    var units := c + r + w + v;
    LanesTogether(t, c, r, w, v);
    UnitsKnown(units, t);
    ManifestAccepted(units, t);
    StagedPairs(query, turns, ranked, split, t, c, r, w, v);
    EarlyDemand(query, turns, ranked, split);
    UpperUnits(t, c, r);
    WhoCountsTwice(t, c + r, w, v, RepeatTaken(ranked, WorkingFlags(ranked)),
                   RepeatTaken(ranked, EvidenceFlags(ranked)));
  }

  lemma UpperUnits(t: Table, c: seq<Unit>, r: seq<Unit>)
    requires LaneDone(t, Current, c, false) && LaneDone(t, Recent, r, false)
    ensures forall i :: 0 <= i < |c + r| ==> (c + r)[i].body != "" && !CountedTwice((c + r)[i].ids, t.at)
  {
    hide CountedTwice, ListSum;
    forall i | 0 <= i < |c + r| ensures (c + r)[i].body != "" && !CountedTwice((c + r)[i].ids, t.at) {
      assert (c + r)[i] in c || (c + r)[i] in r;
    }
  }

  lemma StillEmpty(before: Table, after: Table, changed: Lane, lane: Lane)
    requires OnlyLane(before, after, changed) && lane != changed && LaneEmpty(before, lane)
    ensures LaneEmpty(after, lane)
  {
  }

  /** The first half of _compile_context: the lanes and their candidates. */
  method SelectLanes(query: string, turns: seq<Turn>, atoms: seq<Atom>, split: Splitter, rank: seq<Atom> -> seq<Atom>,
                     queryId: string,
                     store: CandidateStore)
    returns (ok: bool, current: seq<Unit>, tail: seq<Unit>, working: seq<Unit>, evidence: seq<Unit>)
    requires TurnsOk(turns) && RankOk(rank) && IdsNameAtoms(atoms) && store.table == Table([], map[])
    modifies store
    ensures ok == CurrentOk(query, turns, split)
    ensures ok ==> Staged(query, turns, Ranked(query, turns, atoms, rank), split, store.table, current, tail, working,
                          evidence)
  {
    tail, working, evidence := [], [], [];
    var exclude;
    ok, current, exclude := AddCurrent(query, turns, split, queryId, store);
    if !ok { return; }
    hide LaneReady, OnlyLane, TableOk, CountedTwice, CurrentOk, CurrentPairs, TailPairs, RankOk, TurnsOk,
         IdsNameAtoms, RepeatTaken, Chosen, Active, AtomsBut, WorkingFlags, EvidenceFlags, AtomUnits, AtomFlags,
         RetrievedFlags, Join;
    ghost var t1 := store.table;
    assert LaneDone(t1, Current, current, false);
    tail := AddTail(turns, exclude, store);
    ghost var t2 := store.table;
    assert LaneDone(t2, Recent, tail, false);
    LaneDoneFrame(t1, t2, Recent, Current, current, false);
    StillEmpty(t1, t2, Recent, Working);
    StillEmpty(t1, t2, Recent, Retrieved);
    var left := AtomsBut(atoms, exclude);
    assert forall a :: a in left ==> a in atoms;
    RankedNames(left, atoms, rank);
    hide LaneEmpty, LaneDone;
    ghost var ranked := rank(Active(left));
    ghost var again := RepeatTaken(ranked, WorkingFlags(ranked));
    var kept;
    working, kept := AddWorking(left, rank, store);
    ghost var t3 := store.table;
    IsDone(t3, Working, working, again);
    StillEmpty(t2, t3, Working, Retrieved);
    evidence := AddRetrieved(left, rank, IdSet(kept), store);
    ghost var t4 := store.table;
    IsDone(t4, Retrieved, evidence, RepeatTaken(ranked, EvidenceFlags(ranked)));
    LaneDoneFrame(t2, t3, Working, Current, current, false);
    LaneDoneFrame(t2, t3, Working, Recent, tail, false);
    LaneDoneFrame(t3, t4, Retrieved, Current, current, false);
    LaneDoneFrame(t3, t4, Retrieved, Recent, tail, false);
    LaneDoneFrame(t3, t4, Retrieved, Working, working, again);
  }

  lemma IsDone(t: Table, lane: Lane, us: seq<Unit>, counted: bool)
    requires LaneReady(t, lane, us)
    requires forall u :: u in us ==> (CountedTwice(u.ids, t.at) <==> counted)
    requires us == [] ==> !counted
    ensures LaneDone(t, lane, us, counted)
  {
  }

  /** The second half of _compile_context: the assembly and the manifest's numbers. */
  method BuildManifest(units: seq<Unit>, store: CandidateStore) returns (context: string, manifest: Manifest)
    requires TableOk(store.table) && IdsKnown(units, store.table)
    modifies store
    ensures context == Assembled(Pairs(units), TOTAL_BUDGET_CHARS)
    ensures manifest == ManifestOf(units, old(store.table)) && manifest.used == |context|
  {
    hide TableOk, IdsKnown, TableAfter, Formatting, Pairs, Assembled;
    ghost var t := store.table;
    var formatting;
    context, formatting := AssembleContextUnitsInstrumented(units, TOTAL_BUDGET_CHARS, store);
    TableAfterOk(units, |units|, TOTAL_BUDGET_CHARS, t);
    TableKeys(store.table);
    var candidates := Values(store.table.keys, store.table.at);
    var usage := BuildLaneUsage(candidates, formatting);
    forall i | 0 <= i < 4 ensures usage[i] == UsageOf(candidates, usage[i].lane, usage[i].formatting) {
      AgreesIsUsageOf(candidates, usage[i]);
    }
    manifest := Manifest(|context|, |context| - IncludedSum(candidates), candidates, usage);
    UsageIsLanes(units, t, formatting, usage);
  }

  /** _compile_context; Nothing is the ValueError of a constructor. */
  method CompileContext(query: string, turns: seq<Turn>, atoms: seq<Atom>, split: Splitter,
                        rank: seq<Atom> -> seq<Atom>, queryId: string)
    returns (r: Maybe<(string, Manifest)>)
    requires TurnsOk(turns) && RankOk(rank) && IdsNameAtoms(atoms)
    ensures r.Just? <==> CompileOk(query, turns, Ranked(query, turns, atoms, rank), split)
    ensures r.Just? ==>
              && r.value.0 == Assembled(ContextPairs(query, turns, Ranked(query, turns, atoms, rank), split),
                                        TOTAL_BUDGET_CHARS)
              && ManifestOk(r.value.1) && r.value.1.used == |r.value.0|
              && Shows(r.value.0, query, turns, Ranked(query, turns, atoms, rank), split)
  {
    hide CurrentOk, RepeatTaken, EvidenceFits, TableOk, ManifestOf, ManifestOk, Assembled, TurnsOk, RankOk,
         IdsNameAtoms, IdsKnown, ContextPairs, Pairs, WorkingFlags, EvidenceFlags, Staged, Ranked, Shows;
    var store := new CandidateStore();
    ghost var ranked := Ranked(query, turns, atoms, rank);
    var ok, current, tail, working, evidence := SelectLanes(query, turns, atoms, split, rank, queryId, store);
    if !ok { return Nothing; }
    var units := current + tail + working + evidence;
    StagedTable(query, turns, ranked, split, store.table, current, tail, working, evidence);
    StagedAccepted(query, turns, ranked, split, store.table, current, tail, working, evidence);
    StagedPairs(query, turns, ranked, split, store.table, current, tail, working, evidence);
    var context, manifest := BuildManifest(units, store);
    if !ManifestOk(manifest) { return Nothing; }
    ContextSections(query, turns, ranked, split);
    r := Just((context, manifest));
  }

  lemma StagedTable(query: string, turns: seq<Turn>, ranked: seq<Atom>, split: Splitter,
                    t: Table, c: seq<Unit>, r: seq<Unit>, w: seq<Unit>, v: seq<Unit>)
    requires Staged(query, turns, ranked, split, t, c, r, w, v)
    ensures TableOk(t)
  {
  }

  lemma TableKeys(t: Table)
    requires TableOk(t)
    ensures forall k :: k in t.keys ==> k in t.at
  {
  }

  lemma UsageIsLanes(units: seq<Unit>, t: Table, formatting: map<Lane, int>, usage: seq<LaneUsage>)
    requires IdsKnown(units, t) && TableOk(t) && |usage| == 4
    requires formatting == FormattingOf(units, |units|, TOTAL_BUDGET_CHARS, t)
    requires forall i :: 0 <= i < 4 ==>
               usage[i] == UsageOf(FinalCandidates(units, t), LANE_ORDER[i],
                                   if LANE_ORDER[i] in formatting then formatting[LANE_ORDER[i]] else 0)
    ensures usage == ManifestOf(units, t).usage
  {
    hide UsageOf, FinalCandidates, Formatting;
  }

  lemma RankedNames(left: seq<Atom>, atoms: seq<Atom>, rank: seq<Atom> -> seq<Atom>)
    requires RankOk(rank) && IdsNameAtoms(atoms) && forall a :: a in left ==> a in atoms
    ensures IdsNameAtoms(rank(Active(left)))
  {
    var ranked := rank(Active(left));
    RankedActive(left, rank);
    hide RankOk;
    forall i, j | 0 <= i < |ranked| && 0 <= j < |ranked| && ranked[i].id == ranked[j].id
      ensures ranked[i] == ranked[j]
    {
      var p :| 0 <= p < |atoms| && atoms[p] == ranked[i];
      var q :| 0 <= q < |atoms| && atoms[q] == ranked[j];
    }
  }

  // ------------------------------------------------------------ when it works

  predicate DistinctAtoms(atoms: seq<Atom>) {
    forall i, j :: 0 <= i < j < |atoms| ==> atoms[i].id != atoms[j].id
  }

  lemma {:induction false} CountsOfDistinct(atoms: seq<Atom>)
    requires DistinctAtoms(atoms)
    ensures forall a :: multiset(atoms)[a] <= 1
  {
    if atoms != [] {
      var n := |atoms| - 1;
      CountsOfDistinct(atoms[..n]);
      assert atoms == atoms[..n] + [atoms[n]];
      assert forall a :: a in atoms[..n] ==> a != atoms[n];
      assert multiset(atoms[..n])[atoms[n]] == 0;
    }
  }

  lemma CountSplits(s: seq<Atom>, j: nat)
    requires j < |s| && multiset(s)[s[j]] <= 1
    ensures s[j] !in s[..j]
  {
    assert s == s[..j] + ([s[j]] + s[j + 1..]);
    assert multiset(s) == multiset(s[..j]) + multiset([s[j]] + s[j + 1..]);
    assert s[j] in [s[j]] + s[j + 1..];
    assert multiset([s[j]] + s[j + 1..])[s[j]] >= 1;
    assert multiset(s[..j])[s[j]] == 0;
  }

  /** Sorting keeps distinct ids distinct. */
  lemma RankedDistinct(atoms: seq<Atom>, ranked: seq<Atom>)
    requires DistinctAtoms(atoms) && multiset(ranked) == multiset(atoms)
    ensures DistinctAtoms(ranked)
  {
    CountsOfDistinct(atoms);
    forall i, j | 0 <= i < j < |ranked| ensures ranked[i].id != ranked[j].id {
      CountSplits(ranked, j);
      assert ranked[i] in ranked[..j];
      assert ranked[i] in multiset(ranked) && ranked[j] in multiset(ranked);
      assert ranked[i] in atoms && ranked[j] in atoms;
    }
  }

  lemma DistinctMore(s: seq<Atom>, a: Atom)
    requires DistinctAtoms(s) && forall x :: x in s ==> x.id != a.id
    ensures DistinctAtoms(s + [a])
  {
  }

  lemma ActiveMore(s: seq<Atom>, a: Atom)
    ensures Active(s + [a]) == Active(s) + if a.active then [a] else []
  {
    assert (s + [a])[..|s|] == s;
  }

  lemma AtomsButMore(atoms: seq<Atom>, exclude: Maybe<nat>)
    requires atoms != []
    ensures var n := |atoms| - 1;
            AtomsBut(atoms, exclude) ==
            AtomsBut(atoms[..n], exclude)
            + if exclude.Just? && atoms[n].turnIndex == exclude.value then [] else [atoms[n]]
  {
  }

  /** So does leaving some out. */
  lemma {:induction false} SubsequenceDistinct(atoms: seq<Atom>, exclude: Maybe<nat>)
    requires DistinctAtoms(atoms)
    ensures DistinctAtoms(Active(AtomsBut(atoms, exclude)))
  {
    if atoms != [] {
      var n := |atoms| - 1;
      var last := atoms[n];
      var before := AtomsBut(atoms[..n], exclude);
      SubsequenceDistinct(atoms[..n], exclude);
      AtomsButMore(atoms, exclude);
      forall x | x in Active(before) ensures x.id != last.id { assert x in atoms[..n]; }
      hide Active, DistinctAtoms, AtomsBut;
      if exclude.Just? && last.turnIndex == exclude.value {
        assert AtomsBut(atoms, exclude) == before;
      } else {
        ActiveMore(before, last);
        DistinctMore(Active(before), last);
        assert Active(before) + [] == Active(before);
      }
    }
  }

  function Power(k: nat): nat { if k == 0 then 1 else 10 * Power(k - 1) }

  lemma {:induction false} DecimalLength(n: nat, k: nat)
    requires 1 <= k && n < Power(k)
    ensures |Decimal(n)| <= k
  {
    if n >= 10 {
      assert Power(k) == 10 * Power(k - 1) && n / 10 < Power(k - 1);
      assert k > 1;
      DecimalLength(n / 10, k - 1);
    }
  }

  /** A turn of the transcript always leaves room for text: its id has 32 characters
      (stable_turn_id), its alias at most 24 (speaker_alias), and no list has 10^19 turns. */
  lemma RoomForText(t: Turn)
    requires |t.id| == 32 && |t.alias| <= 24 && t.index < Power(19)
    ensures TextRoom(t, Budget(Current)) > 0
  {
    DecimalLength(t.index, 19);
  }

  /** What the caller can check beforehand: no atom id repeats, no text that stays
      whole contains a marker, and the current turn has room for text, which RoomForText
      gives, and when it is cut it is longer than the room and the marker together. */
  predicate Preconditions(query: string, turns: seq<Turn>, atoms: seq<Atom>) {
    && DistinctAtoms(atoms)
    && !OccursIn(QUERY_MARKER, query)
    && (IsLastTurn(query, turns) ==>
          var t := turns[|turns| - 1];
          var room := TextRoom(t, Budget(Current));
          && room > 0 && !OccursIn(TURN_MARKER, FormatTurnBlock(t))
          && (|t.text| > room ==> |t.text| > room + |TURN_MARKER|))
  }

  /** Under them every compilation ends with a manifest. */
  lemma PreconditionsSuffice(query: string, turns: seq<Turn>, atoms: seq<Atom>, split: Splitter,
                             rank: seq<Atom> -> seq<Atom>)
    requires RankOk(rank) && Preconditions(query, turns, atoms)
    ensures CompileOk(query, turns, Ranked(query, turns, atoms, rank), split)
  {
    var exclude := ExcludedIndex(query, turns);
    var ranked := Ranked(query, turns, atoms, rank);
    SubsequenceDistinct(atoms, exclude);
    assert multiset(ranked) == multiset(Active(AtomsBut(atoms, exclude)));
    RankedDistinct(Active(AtomsBut(atoms, exclude)), ranked);
    hide OccursIn, FormatTurnBlock, Active, AtomsBut, WorkingFlags, EvidenceFlags, EvidenceFits, KeptText;
  }

  // ------------------------------------------------------------ when it fails

  /** The characters of all atom lines with their line breaks. */
  function LineCost(atoms: seq<Atom>): nat {
    if atoms == [] then 0 else LineCost(atoms[..|atoms| - 1]) + |FormatAtomLine(atoms[|atoms| - 1])| + 1
  }

  lemma LineCostStep(atoms: seq<Atom>, a: Atom)
    ensures LineCost(atoms + [a]) == LineCost(atoms) + |FormatAtomLine(a)| + 1
  {
    assert (atoms + [a])[..|atoms|] == atoms;
  }

  lemma {:induction false} LineCostWithout(atoms: seq<Atom>, i: nat)
    requires i < |atoms|
    ensures LineCost(atoms) == LineCost(atoms[..i] + atoms[i + 1..]) + |FormatAtomLine(atoms[i])| + 1
  {
    hide FormatAtomLine;
    var n := |atoms| - 1;
    if i == n {
      assert atoms[..i] + atoms[i + 1..] == atoms[..n];
    } else {
      LineCostWithout(atoms[..n], i);
      assert atoms[..i] + atoms[i + 1..] == (atoms[..n][..i] + atoms[..n][i + 1..]) + [atoms[n]];
      LineCostStep(atoms[..n][..i] + atoms[..n][i + 1..], atoms[n]);
    }
  }

  lemma MultisetWithout(b: seq<Atom>, i: nat)
    requires i < |b|
    ensures multiset(b[..i] + b[i + 1..]) == multiset(b) - multiset{b[i]}
  {
    assert b == b[..i] + ([b[i]] + b[i + 1..]);
  }

  /** Reordering does not change the cost. */
  lemma {:induction false} LineCostPermuted(a: seq<Atom>, b: seq<Atom>)
    requires multiset(a) == multiset(b)
    ensures LineCost(a) == LineCost(b)
  {
    hide FormatAtomLine;
    assert |a| == |multiset(a)| == |multiset(b)| == |b|;
    if a != [] {
      var n := |a| - 1;
      assert a[n] in multiset(b);
      var i :| 0 <= i < |b| && b[i] == a[n];
      assert a == a[..n] + [a[n]];
      MultisetWithout(b, i);
      assert multiset(a) - multiset{a[n]} == multiset(a[..n]);
      LineCostPermuted(a[..n], b[..i] + b[i + 1..]);
      LineCostWithout(b, i);
    }
  }

  /** When everything fits, everything is taken. */
  lemma {:induction false} GreedyTakesAll(items: seq<Item>, limit: nat, budget: nat)
    requires |items| <= limit && Total(items) <= budget && forall i :: 0 <= i < |items| ==> items[i].eligible
    ensures var f := Greedy(items, limit, budget);
            Taken(f) == |items| && Spent(items, f) == Total(items) && forall i :: 0 <= i < |f| ==> f[i]
  {
    if items != [] {
      var n := |items| - 1;
      var before := items[..n];
      GreedyTakesAll(before, limit, budget);
      var f := Greedy(before, limit, budget);
      assert Room(before, f, limit, budget, items[n]);
      assert (f + [true])[..n] == f;
    }
  }

  lemma {:induction false} TotalIsLineCost(ranked: seq<Atom>)
    ensures Total(AtomItems(ranked)) == LineCost(ranked)
  {
    hide FormatAtomLine;
    if ranked != [] {
      TotalIsLineCost(ranked[..|ranked| - 1]);
      assert AtomItems(ranked)[..|ranked| - 1] == AtomItems(ranked[..|ranked| - 1]);
    }
  }

  lemma RepeatsStay(a: seq<Atom>, ranked: seq<Atom>) returns (i: nat, j: nat)
    requires multiset(ranked) == multiset(a) && !DistinctAtoms(a)
    ensures i < j < |ranked| && ranked[i].id == ranked[j].id && LastCopy(ranked, j)
  {
    if DistinctAtoms(ranked) {
      RankedDistinct(ranked, a);
      assert false;
    }
    var k;
    i, k :| 0 <= i < k < |ranked| && ranked[i].id == ranked[k].id;
    j := LastCopyFrom(ranked, k);
  }

  /** An atom id said twice, where all atoms that are still active fit into working memory:
      every copy is selected, the manifest counts one, and the compilation fails, however
      the atoms are ranked. */
  lemma RepeatedSentenceFails(query: string, turns: seq<Turn>, atoms: seq<Atom>, split: Splitter,
                              rank: seq<Atom> -> seq<Atom>)
    requires RankOk(rank)
    requires var left := Active(AtomsBut(atoms, ExcludedIndex(query, turns)));
             !DistinctAtoms(left) && |left| <= MAX_ACTIVE_MEMORY_ATOMS && LineCost(left) <= Budget(Working)
    ensures !CompileOk(query, turns, Ranked(query, turns, atoms, rank), split)
  {
    var left, ranked := Active(AtomsBut(atoms, ExcludedIndex(query, turns))), Ranked(query, turns, atoms, rank);
    assert multiset(ranked) == multiset(left) && |multiset(ranked)| == |ranked| && |multiset(left)| == |left|;
    hide *;
    LineCostPermuted(ranked, left);
    var i, j := RepeatsStay(left, ranked);
    TwiceFails(query, turns, ranked, split, i, j);
  }

  lemma AllWorking(ranked: seq<Atom>)
    requires |ranked| <= MAX_ACTIVE_MEMORY_ATOMS && LineCost(ranked) <= Budget(Working)
    ensures forall i :: 0 <= i < |ranked| ==> WorkingFlags(ranked)[i]
  {
    TotalIsLineCost(ranked);
    hide FormatAtomLine, LineCost, Total, Greedy;
    GreedyTakesAll(AtomItems(ranked), MAX_ACTIVE_MEMORY_ATOMS, Budget(Working));
  }

  lemma TwiceFails(query: string, turns: seq<Turn>, ranked: seq<Atom>, split: Splitter, i: nat, j: nat)
    requires |ranked| <= MAX_ACTIVE_MEMORY_ATOMS && LineCost(ranked) <= Budget(Working)
    requires i < j < |ranked| && ranked[i].id == ranked[j].id && LastCopy(ranked, j)
    ensures !CompileOk(query, turns, ranked, split)
  {
    hide CurrentOk, EvidenceFits, EvidenceFlags, LineCost, WorkingFlags, LastCopy;
    AllWorking(ranked);
    assert RepeatTaken(ranked, WorkingFlags(ranked));
  }

  /** A current turn whose text is over the room by at most the marker and whose first
      sentence is over the room is cut to something no shorter, which cannot be recorded. */
  lemma CutThatDoesNotShorten(query: string, turns: seq<Turn>, split: Splitter)
    requires query != "" && IsLastTurn(query, turns)
    requires var room := TextRoom(turns[|turns| - 1], Budget(Current));
             && 0 < room < |query| <= room + |TURN_MARKER|
             && (split(query) == [] || |split(query)[0]| > room)
    ensures !CurrentOk(query, turns, split)
  {
    var parts := split(query);
    var room := TextRoom(turns[|turns| - 1], Budget(Current));
    if parts != [] {
      assert parts[..0 + 1] == [parts[0]] && [parts[0]][..0] == [];
      assert Size(parts[..0 + 1]) == |parts[0]|;
    }
    assert FitFrom(parts, 0, room) == 0;
  }

  /** Units that ask for no more than the total are all selected. */
  lemma {:induction false} AllSelected(pairs: seq<(string, string)>, total: nat, i: nat, n: nat)
    requires i < n <= |pairs| && Demand(pairs) <= total && pairs[i].1 != ""
    ensures BlockOf(pairs[i].0, pairs[i].1) in Selected(pairs[..n], total)
    decreases n
  {
    hide Join, BlockOf, FitsAfter, Demand, Selected;
    SelectedStep(pairs, total, n - 1);
    if i < n - 1 {
      AllSelected(pairs, total, i, n - 1);
    } else {
      DemandPrefix(pairs, i);
      DemandPrefix(pairs, i + 1);
      AllFit(pairs, total, i);
    }
  }

  /** The upper three lanes are never dropped for the total budget. */
  lemma UpperLanesKept(query: string, turns: seq<Turn>, ranked: seq<Atom>, split: Splitter)
    ensures var pairs := EarlyPairs(query, turns, ranked, split);
            forall i :: 0 <= i < |pairs| && pairs[i].1 != "" ==>
              BlockOf(pairs[i].0, pairs[i].1) in Selected(pairs, TOTAL_BUDGET_CHARS)
  {
    hide EarlyPairs, BlockOf, Selected, Demand;
    var pairs := EarlyPairs(query, turns, ranked, split);
    EarlyDemand(query, turns, ranked, split);
    assert pairs[..|pairs|] == pairs;
    forall i | 0 <= i < |pairs| && pairs[i].1 != ""
      ensures BlockOf(pairs[i].0, pairs[i].1) in Selected(pairs, TOTAL_BUDGET_CHARS)
    {
      AllSelected(pairs, TOTAL_BUDGET_CHARS, i, |pairs|);
    }
  }
}
