/** Assembling the lane units of session_memory.py under the total budget, the
    accounting of formatting characters, and lane usage. */
module ContextAssembly {
  import opened Common
  import opened RetrievalManifest
  import opened ContextSelection

  const SEPARATOR := "\n\n"

  datatype Unit = Unit(header: string, body: string, lane: Lane, ids: seq<CandidateId>)

  function BlockOf(header: string, body: string): string {
    if header != "" then header + "\n" + body else body
  }

  /** What block adds to a context that already holds the selected ones. */
  function CostAfter(selected: seq<string>, block: string): nat {
    |block| + if selected == [] then 0 else |SEPARATOR|
  }

  predicate FitsAfter(selected: seq<string>, block: string, total: nat) {
    |Join(selected, SEPARATOR)| + CostAfter(selected, block) <= total
  }

  /** The blocks of the units that fit beside the earlier ones. */
  function Selected(units: seq<(string, string)>, total: nat): seq<string> {
    if units == [] then []
    else
      var (header, body) := units[|units| - 1];
      var before := Selected(units[..|units| - 1], total);
      if body == "" || !FitsAfter(before, BlockOf(header, body), total) then before
      else before + [BlockOf(header, body)]
  }

  function Assembled(units: seq<(string, string)>, total: nat): string { Join(Selected(units, total), SEPARATOR) }

  lemma SelectedStep(units: seq<(string, string)>, total: nat, i: nat)
    requires i < |units|
    ensures var before := Selected(units[..i], total);
            var block := BlockOf(units[i].0, units[i].1);
            Selected(units[..i + 1], total) ==
              if units[i].1 == "" || !FitsAfter(before, block, total) then before else before + [block]
  {
    assert units[..i + 1][..i] == units[..i];
  }

  lemma JoinStep(selected: seq<string>, block: string)
    ensures |Join(selected + [block], SEPARATOR)| == |Join(selected, SEPARATOR)| + CostAfter(selected, block)
  {
    assert (selected + [block])[..|selected|] == selected;
  }

  /** The context never exceeds the total budget. */
  lemma {:induction false} AssembledFits(units: seq<(string, string)>, total: nat)
    ensures |Assembled(units, total)| <= total
  {
    if units != [] {
      var n := |units| - 1;
      AssembledFits(units[..n], total);
      JoinStep(Selected(units[..n], total), BlockOf(units[n].0, units[n].1));
    }
  }

  /** _assemble_context_units. */
  method AssembleContextUnits(units: seq<(string, string)>, total: nat) returns (context: string)
    ensures context == Assembled(units, total)
  {
    hide Join, BlockOf;
    var selected: seq<string>, used := [], 0;
    assert |Join([], SEPARATOR)| == 0 by { EmptyJoin(); }
    for i := 0 to |units|
      invariant selected == Selected(units[..i], total)
      invariant used == |Join(selected, SEPARATOR)|
    {
      SelectedStep(units, total, i);
      var (header, body) := units[i];
      if body == "" { continue; }
      var block := BlockOf(header, body);
      var cost := |block| + if selected != [] then 2 else 0;
      if used + cost > total { continue; }
      JoinStep(selected, block);
      selected := selected + [block];
      used := used + cost;
    }
    assert units[..|units|] == units;
    return Join(selected, SEPARATOR);
  }

  lemma EmptyJoin()
    ensures |Join([], SEPARATOR)| == 0
  {
  }

  // ------------------------------------------------------------ the instrumented twin

  function Pairs(units: seq<Unit>): (r: seq<(string, string)>)
    ensures |r| == |units| && forall i :: 0 <= i < |r| ==> r[i] == (units[i].header, units[i].body)
  {
    seq(|units|, i requires 0 <= i < |units| => (units[i].header, units[i].body))
  }

  function Before(units: seq<Unit>, k: nat, total: nat): seq<string>
    requires k <= |units|
  {
    Selected(Pairs(units[..k]), total)
  }

  function CostOf(units: seq<Unit>, k: nat, total: nat): nat
    requires k < |units|
  {
    CostAfter(Before(units, k, total), BlockOf(units[k].header, units[k].body))
  }

  /** Unit k makes it into the context. */
  predicate Fits(units: seq<Unit>, k: nat, total: nat)
    requires k < |units|
  {
    units[k].body != "" && FitsAfter(Before(units, k, total), BlockOf(units[k].header, units[k].body), total)
  }

  predicate Dropped(units: seq<Unit>, k: nat, total: nat)
    requires k < |units|
  {
    units[k].body != "" && !Fits(units, k, total)
  }

  ghost predicate AllIn(ids: seq<CandidateId>, t: Table) { forall k :: k in ids ==> k in t.at }

  ghost predicate IdsKnown(units: seq<Unit>, t: Table) { forall i :: 0 <= i < |units| ==> AllIn(units[i].ids, t) }

  function Discarded(c: Candidate): Candidate { c.(status := Rejected, reason := TotalBudget, included := 0) }

  function DiscardAll(t: Table, ids: seq<CandidateId>): (r: Table)
    requires AllIn(ids, t)
    ensures r.keys == t.keys && r.at.Keys == t.at.Keys
  {
    if ids == [] then t
    else
      var before := DiscardAll(t, ids[..|ids| - 1]);
      var k := ids[|ids| - 1];
      assert k in t.at;
      Put(before, Discarded(before.at[k]).(id := k))
  }

  lemma DiscardOne(t: Table, k: CandidateId)
    requires TableOk(t) && k in t.at
    ensures TableOk(Put(t, Discarded(t.at[k]).(id := k)))
    ensures Put(t, Discarded(t.at[k]).(id := k)).at == t.at[k := Discarded(t.at[k])]
  {
  }

  lemma {:induction false} DiscardAllMeaning(t: Table, ids: seq<CandidateId>)
    requires TableOk(t) && AllIn(ids, t)
    ensures TableOk(DiscardAll(t, ids))
    ensures forall k :: k in t.at ==> DiscardAll(t, ids).at[k] == if k in ids then Discarded(t.at[k]) else t.at[k]
  {
    hide TableOk, Put;
    if ids != [] {
      var n := |ids| - 1;
      DiscardAllMeaning(t, ids[..n]);
      assert ids == ids[..n] + [ids[n]] && ids[n] in t.at;
      DiscardOne(DiscardAll(t, ids[..n]), ids[n]);
    }
  }

  /** The table after the first n units. */
  function TableAfter(units: seq<Unit>, n: nat, total: nat, t: Table): (r: Table)
    requires n <= |units| && IdsKnown(units, t)
    ensures r.keys == t.keys && r.at.Keys == t.at.Keys
  {
    if n == 0 then t
    else
      var before := TableAfter(units, n - 1, total, t);
      assert AllIn(units[n - 1].ids, t);
      if Dropped(units, n - 1, total) then DiscardAll(before, units[n - 1].ids) else before
  }

  lemma {:induction false} TableAfterOk(units: seq<Unit>, n: nat, total: nat, t: Table)
    requires n <= |units| && IdsKnown(units, t) && TableOk(t)
    ensures TableOk(TableAfter(units, n, total, t))
  {
    hide TableOk, DiscardAll;
    if n > 0 {
      TableAfterOk(units, n - 1, total, t);
      assert AllIn(units[n - 1].ids, t);
      DiscardAllMeaning(TableAfter(units, n - 1, total, t), units[n - 1].ids);
    }
  }

  /** The formatting characters booked on a lane by the first n units. */
  function Formatting(units: seq<Unit>, n: nat, total: nat, t: Table, lane: Lane): int
    requires n <= |units| && IdsKnown(units, t)
  {
    if n == 0 then 0
    else
      assert AllIn(units[n - 1].ids, t);
      Formatting(units, n - 1, total, t, lane)
      + if units[n - 1].lane == lane && Fits(units, n - 1, total)
        then CostOf(units, n - 1, total) - ListSum(units[n - 1].ids, TableAfter(units, n - 1, total, t).at)
        else 0
  }

  function FormattingOf(units: seq<Unit>, n: nat, total: nat, t: Table): map<Lane, int>
    requires n <= |units| && IdsKnown(units, t)
  {
    map[Current := Formatting(units, n, total, t, Current), Recent := Formatting(units, n, total, t, Recent),
        Working := Formatting(units, n, total, t, Working), Retrieved := Formatting(units, n, total, t, Retrieved)]
  }

  lemma FormattingStep(units: seq<Unit>, n: nat, total: nat, t: Table)
    requires n < |units| && IdsKnown(units, t)
    ensures var f := FormattingOf(units, n, total, t);
            && units[n].lane in f && AllIn(units[n].ids, TableAfter(units, n, total, t))
            && FormattingOf(units, n + 1, total, t) ==
               if Fits(units, n, total)
               then f[units[n].lane :=
                      f[units[n].lane] + CostOf(units, n, total)
                      - ListSum(units[n].ids, TableAfter(units, n, total, t).at)]
               else f
  {
    hide CostOf, ListSum, Fits, TableOk;
    assert AllIn(units[n].ids, t);
    match units[n].lane case Current => case Recent => case Working => case Retrieved =>
  }

  /** _assemble_context_units_instrumented. */
  method AssembleContextUnitsInstrumented(units: seq<Unit>, total: nat, store: CandidateStore)
    returns (context: string, laneFormatting: map<Lane, int>)
    requires TableOk(store.table) && IdsKnown(units, store.table)
    modifies store
    ensures context == Assembled(Pairs(units), total)
    ensures store.table == TableAfter(units, |units|, total, old(store.table))
    ensures laneFormatting == FormattingOf(units, |units|, total, old(store.table))
  {
    hide Join, BlockOf, ListSum, Formatting, FormattingOf, Selected, IdsKnown, TableOk;
    var selected: seq<string>, used := [], 0;
    ghost var t := store.table;
    assert FormattingOf(units, 0, total, t) == map[Current := 0, Recent := 0, Working := 0, Retrieved := 0] by {
      FormattingStart(units, total, t);
    }
    laneFormatting := map[Current := 0, Recent := 0, Working := 0, Retrieved := 0];
    assert |Join([], SEPARATOR)| == 0 by { EmptyJoin(); }
    assert Before(units, 0, total) == [] by { NothingBefore(units, total); }
    for i := 0 to |units|
      invariant selected == Before(units, i, total)
      invariant used == |Join(selected, SEPARATOR)|
      invariant store.table == TableAfter(units, i, total, t)
      invariant laneFormatting == FormattingOf(units, i, total, t)
    {
      var unit := units[i];
      BeforeStep(units, i, total);
      FormattingStep(units, i, total, t);
      TableAfterOk(units, i, total, t);
      if unit.body == "" { continue; }
      var block := BlockOf(unit.header, unit.body);
      var cost := |block| + if selected != [] then 2 else 0;
      if used + cost > total {
        Discard(unit.ids, store);
        continue;
      }
      var included := CountIncluded(unit.ids, store);
      laneFormatting := laneFormatting[unit.lane := laneFormatting[unit.lane] + cost - included];
      JoinStep(selected, block);
      selected := selected + [block];
      used := used + cost;
    }
    assert units[..|units|] == units;
    return Join(selected, SEPARATOR), laneFormatting;
  }

  lemma FormattingStart(units: seq<Unit>, total: nat, t: Table)
    requires IdsKnown(units, t)
    ensures FormattingOf(units, 0, total, t) == map[Current := 0, Recent := 0, Working := 0, Retrieved := 0]
  {
  }

  lemma NothingBefore(units: seq<Unit>, total: nat)
    ensures Before(units, 0, total) == []
  {
  }

  lemma BeforeStep(units: seq<Unit>, i: nat, total: nat)
    requires i < |units|
    ensures Before(units, i + 1, total) ==
            Before(units, i, total) + if Fits(units, i, total) then [BlockOf(units[i].header, units[i].body)] else []
  {
    assert Pairs(units[..i + 1])[..i] == Pairs(units[..i]);
    SelectedStep(Pairs(units[..i + 1]), total, i);
    assert Pairs(units[..i + 1])[..i + 1] == Pairs(units[..i + 1]);
  }

  /** The loop over the candidates of a unit over the total budget. */
  method Discard(ids: seq<CandidateId>, store: CandidateStore)
    requires TableOk(store.table) && AllIn(ids, store.table)
    modifies store
    ensures store.table == DiscardAll(old(store.table), ids)
  {
    ghost var t := store.table;
    for i := 0 to |ids|
      invariant store.table == DiscardAll(t, ids[..i])
    {
      assert ids[..i + 1][..i] == ids[..i] && ids[i] in t.at;
      assert ids[i] in store.table.keys;
      var previous := store.table.at[ids[i]];
      DiscardAllMeaning(t, ids[..i]);
      store.table := Put(store.table, Candidate(previous.id, previous.charCount, 0, Rejected, TotalBudget));
    }
    assert ids[..|ids|] == ids;
  }

  /** The loop over the candidates of a unit that fits; rewriting included_chars
      with what it already is changes nothing. */
  method CountIncluded(ids: seq<CandidateId>, store: CandidateStore) returns (sum: nat)
    requires TableOk(store.table) && AllIn(ids, store.table)
    modifies store
    ensures store.table == old(store.table) && sum == ListSum(ids, store.table.at)
  {
    sum := 0;
    ghost var t := store.table;
    for i := 0 to |ids|
      invariant store.table == t && sum == ListSum(ids[..i], t.at)
    {
      assert ids[..i + 1][..i] == ids[..i];
      var previous := store.table.at[ids[i]];
      assert CandidateOk(previous);
      if previous.status in {Accepted, AcceptedTruncated} {
        var included := if previous.status == AcceptedTruncated then previous.included else previous.charCount;
        sum := sum + included;
        store.table := Put(store.table, previous.(included := included));
        assert store.table.at == t.at;
      }
    }
    assert ids[..|ids|] == ids;
  }
}
