/** The greedy selectors of session_memory.py: every instrumented loop beside its
    plain twin, both proved against the same definition of greedy selection. */
module ContextSelection {
  import opened Common
  import opened RetrievalManifest

  // ------------------------------------------------------------ text

  /** char_count, on text that is already normalized. */
  function Join(parts: seq<string>, separator: string): string {
    if parts == [] then ""
    else if |parts| == 1 then parts[0]
    else Join(parts[..|parts| - 1], separator) + separator + parts[|parts| - 1]
  }

  function Size(parts: seq<string>): nat {
    if parts == [] then 0 else Size(parts[..|parts| - 1]) + |parts[|parts| - 1]|
  }

  lemma {:induction false} JoinSize(parts: seq<string>, separator: string)
    ensures |Join(parts, separator)| == Size(parts) + (if parts == [] then 0 else (|parts| - 1) * |separator|)
  {
    if |parts| > 1 {
      JoinSize(parts[..|parts| - 1], separator);
      assert (|parts| - 1) * |separator| == (|parts| - 2) * |separator| + |separator|;
    } else if |parts| == 1 {
      assert Size(parts[..0]) == 0;
    }
  }

  // ------------------------------------------------------------ greedy selection

  /** Something to select: its cost, and whether it is considered at all. */
  datatype Item = Item(cost: nat, eligible: bool)

  function Taken(f: seq<bool>): (n: nat)
    ensures n <= |f|
  {
    if f == [] then 0 else Taken(f[..|f| - 1]) + if f[|f| - 1] then 1 else 0
  }

  function Spent(items: seq<Item>, f: seq<bool>): nat
    requires |f| == |items|
  {
    if f == [] then 0
    else Spent(items[..|f| - 1], f[..|f| - 1]) + if f[|f| - 1] then items[|f| - 1].cost else 0
  }

  predicate Room(items: seq<Item>, f: seq<bool>, limit: nat, budget: nat, next: Item)
    requires |f| == |items|
  {
    next.eligible && Taken(f) < limit && Spent(items, f) + next.cost <= budget
  }

  /** Which items are taken, walking from the first: whatever still fits. */
  function Greedy(items: seq<Item>, limit: nat, budget: nat): (f: seq<bool>)
    ensures |f| == |items|
  {
    if items == [] then []
    else
      var before := items[..|items| - 1];
      var f := Greedy(before, limit, budget);
      f + [Room(before, f, limit, budget, items[|items| - 1])]
  }

  function Chosen<T>(all: seq<T>, f: seq<bool>): (r: seq<T>)
    requires |f| == |all|
    ensures |r| == Taken(f)
  {
    if all == [] then []
    else Chosen(all[..|all| - 1], f[..|f| - 1]) + if f[|f| - 1] then [all[|all| - 1]] else []
  }

  lemma {:induction false} GreedyPrefix(items: seq<Item>, limit: nat, budget: nat, n: nat)
    requires n <= |items|
    ensures Greedy(items, limit, budget)[..n] == Greedy(items[..n], limit, budget)
  {
    if n < |items| {
      GreedyPrefix(items[..|items| - 1], limit, budget, n);
      assert items[..|items| - 1][..n] == items[..n];
    } else {
      assert items[..n] == items;
    }
  }

  /** An item is taken exactly when it is eligible and fits beside what was taken before it. */
  lemma GreedyTakes(items: seq<Item>, limit: nat, budget: nat, i: nat)
    requires i < |items|
    ensures var f := Greedy(items, limit, budget);
            f[i] <==> Room(items[..i], f[..i], limit, budget, items[i])
  {
    GreedyPrefix(items, limit, budget, i);
    GreedyPrefix(items, limit, budget, i + 1);
    assert items[..i + 1][..i] == items[..i];
    assert Greedy(items, limit, budget)[i] == Greedy(items, limit, budget)[..i + 1][i];
  }

  lemma {:induction false} GreedyFits(items: seq<Item>, limit: nat, budget: nat)
    ensures Taken(Greedy(items, limit, budget)) <= limit
    ensures Spent(items, Greedy(items, limit, budget)) <= budget
  {
    if items != [] {
      GreedyFits(items[..|items| - 1], limit, budget);
      var f := Greedy(items, limit, budget);
      assert f[..|items| - 1] == Greedy(items[..|items| - 1], limit, budget);
    }
  }

  lemma ChosenStep<T>(all: seq<T>, f: seq<bool>, i: nat, b: bool)
    requires |f| == i < |all|
    ensures Chosen(all[..i + 1], f + [b]) == Chosen(all[..i], f) + if b then [all[i]] else []
  {
    assert all[..i + 1][..i] == all[..i] && (f + [b])[..i] == f;
  }

  lemma SpentStep(items: seq<Item>, f: seq<bool>, i: nat, b: bool)
    requires |f| == i < |items|
    ensures Spent(items[..i + 1], f + [b]) == Spent(items[..i], f) + if b then items[i].cost else 0
  {
    assert items[..i + 1][..i] == items[..i] && (f + [b])[..i] == f;
  }

  lemma GreedyStep(items: seq<Item>, limit: nat, budget: nat, i: nat)
    requires i < |items|
    ensures var f := Greedy(items[..i], limit, budget);
            Greedy(items[..i + 1], limit, budget) == f + [Room(items[..i], f, limit, budget, items[i])]
  {
    assert items[..i + 1][..i] == items[..i];
  }

  /** Once the count is reached nothing more is taken. */
  lemma {:induction false} GreedySaturated<T>(all: seq<T>, items: seq<Item>, limit: nat, budget: nat, n: nat, m: nat)
    requires |all| == |items| && n <= m <= |items|
    requires Taken(Greedy(items[..n], limit, budget)) >= limit
    ensures Taken(Greedy(items[..m], limit, budget)) >= limit
    ensures Chosen(all[..m], Greedy(items[..m], limit, budget)) == Chosen(all[..n], Greedy(items[..n], limit, budget))
    decreases m
  {
    hide Greedy, Chosen, Room;
    if n < m {
      GreedySaturated(all, items, limit, budget, n, m - 1);
      GreedyStep(items, limit, budget, m - 1);
      var f := Greedy(items[..m - 1], limit, budget);
      NoRoom(items[..m - 1], f, limit, budget, items[m - 1]);
      ChosenStep(all, f, m - 1, false);
    }
  }

  lemma NoRoom(items: seq<Item>, f: seq<bool>, limit: nat, budget: nat, next: Item)
    requires |f| == |items| && Taken(f) >= limit
    ensures !Room(items, f, limit, budget, next) && Taken(f + [false]) == Taken(f)
  {
    assert (f + [false])[..|f|] == f;
  }

  ghost predicate TakenAt<T(!new)>(all: seq<T>, f: seq<bool>, x: T, i: int)
    requires |f| == |all|
  {
    0 <= i < |all| && f[i] && all[i] == x
  }

  lemma {:induction false} ChosenFrom<T(!new)>(all: seq<T>, f: seq<bool>)
    requires |f| == |all|
    ensures forall x :: x in Chosen(all, f) <==> exists i :: TakenAt(all, f, x, i)
  {
    if all != [] {
      var n := |all| - 1;
      var rest, g := all[..n], f[..n];
      ChosenFrom(rest, g);
      forall x ensures x in Chosen(all, f) <==> exists i :: TakenAt(all, f, x, i) {
        if i :| TakenAt(rest, g, x, i) { assert TakenAt(all, f, x, i); }
        if i :| TakenAt(all, f, x, i) {
          if i < n { assert TakenAt(rest, g, x, i); }
        }
        if f[n] && all[n] == x { assert TakenAt(all, f, x, n); }
      }
    }
  }

  /** r is what stands at the given places, in order. */
  ghost predicate StandsAt<T(!new)>(all: seq<T>, r: seq<T>, at: seq<int>) {
    && |at| == |r| && (forall i, j :: 0 <= i < j < |at| ==> at[i] < at[j])
    && forall i :: 0 <= i < |at| ==> 0 <= at[i] < |all| && r[i] == all[at[i]]
  }

  /** The places are the marked ones. */
  ghost predicate MarkedAt(f: seq<bool>, at: seq<int>) {
    forall j :: 0 <= j < |f| ==> (f[j] <==> j in at)
  }

  /** What is chosen is what stands at all marked places, in the order of the list. */
  lemma {:induction false} ChosenPlaces<T(!new)>(all: seq<T>, f: seq<bool>) returns (at: seq<int>)
    requires |f| == |all|
    ensures StandsAt(all, Chosen(all, f), at) && MarkedAt(f, at)
  {
    at := [];
    if all != [] {
      hide StandsAt, MarkedAt;
      var n := |all| - 1;
      var before := ChosenPlaces(all[..n], f[..n]);
      assert all == all[..n] + [all[n]] && f == f[..n] + [f[n]];
      at := before + if f[n] then [n] else [];
      OnePlaceMore(all[..n], Chosen(all[..n], f[..n]), f[..n], before, all[n], f[n]);
    } else {
      assert Chosen(all, f) == [];
    }
  }

  lemma OnePlaceMore<T(!new)>(all: seq<T>, r: seq<T>, f: seq<bool>, at: seq<int>, x: T, b: bool)
    requires |f| == |all| && StandsAt(all, r, at) && MarkedAt(f, at)
    ensures var n, more := |all|, at + if b then [|all|] else [];
            StandsAt(all + [x], r + if b then [x] else [], more) && MarkedAt(f + [b], more)
  {
    assert |all| !in at;
  }

  // ------------------------------------------------------------ records

  function NewCandidate(lane: Lane, document: string, rendered: nat, status: Status, reason: Reason,
                        full: Maybe<nat>): Candidate {
    var block := if full.Just? then full.value else rendered;
    var included := match status
      case AcceptedTruncated => rendered
      case Accepted => block
      case _ => 0;
    Candidate(CandidateId(lane, document), block, included, status, reason)
  }

  function RecordAll(t: Table, cs: seq<Candidate>): Table {
    if cs == [] then t else Put(RecordAll(t, cs[..|cs| - 1]), cs[|cs| - 1])
  }

  ghost predicate LastRecord(cs: seq<Candidate>, i: int) {
    0 <= i < |cs| && forall j :: i < j < |cs| ==> cs[j].id != cs[i].id
  }

  lemma {:induction false} RecordAllOk(t: Table, cs: seq<Candidate>)
    requires TableOk(t) && forall i :: 0 <= i < |cs| ==> CandidateOk(cs[i])
    ensures TableOk(RecordAll(t, cs))
  {
    if cs != [] { RecordAllOk(t, cs[..|cs| - 1]); }
  }

  /** A later record of the same id replaces an earlier one. */
  lemma {:induction false} LastRecordStands(t: Table, cs: seq<Candidate>, i: nat)
    requires LastRecord(cs, i)
    ensures cs[i].id in RecordAll(t, cs).at && RecordAll(t, cs).at[cs[i].id] == cs[i]
  {
    var n := |cs| - 1;
    if i < n {
      assert cs[n].id != cs[i].id;
      LastRecordStands(t, cs[..n], i);
    }
  }

  lemma {:induction false} OthersStand(t: Table, cs: seq<Candidate>, k: CandidateId)
    requires forall i :: 0 <= i < |cs| ==> cs[i].id != k
    ensures k in RecordAll(t, cs).at <==> k in t.at
    ensures k in t.at ==> RecordAll(t, cs).at[k] == t.at[k]
  {
    if cs != [] { OthersStand(t, cs[..|cs| - 1], k); }
  }

  class CandidateStore {
    var table: Table

    constructor ()
      ensures table == Table([], map[]) && TableOk(table)
    {
      table := Table([], map[]);
    }

    /** _record_candidate; false is the ValueError of the candidate constructor. */
    method Record(lane: Lane, document: string, rendered: string, status: Status, reason: Reason, full: Maybe<nat>)
      returns (ok: bool)
      modifies this
      ensures var c := NewCandidate(lane, document, |rendered|, status, reason, full);
              ok == CandidateOk(c) && table == if ok then Put(old(table), c) else old(table)
    {
      var blockCount := if full.Just? then full.value else |rendered|;
      var included := 0;
      if status == AcceptedTruncated {
        included := |rendered|;
      } else if status == Accepted {
        included := blockCount;
      }
      var c := Candidate(CandidateId(lane, document), blockCount, included, status, reason);
      if !CandidateOk(c) { return false; }
      table := Put(table, c);
      ok := true;
    }
  }

  // ------------------------------------------------------------ turns

  datatype Turn = Turn(id: string, index: nat, alias: string, fromCandidate: bool, text: string)

  function Header(t: Turn): string {
    "[turn_id: " + t.id + " turn_index: " + Decimal(t.index) + " speaker_alias: " + t.alias + "]"
  }

  function FormatTurnBlock(t: Turn): string { Header(t) + "\n" + t.text }

  function Blocks(turns: seq<Turn>): (r: seq<string>)
    ensures |r| == |turns|
  {
    seq(|turns|, i requires 0 <= i < |turns| => FormatTurnBlock(turns[i]))
  }

  function Reversed<T>(s: seq<T>): (r: seq<T>)
    ensures |r| == |s| && forall i :: 0 <= i < |s| ==> r[i] == s[|s| - 1 - i]
  {
    if s == [] then [] else Reversed(s[1..]) + [s[0]]
  }

  predicate Excluded(t: Turn, exclude: Maybe<nat>) { exclude.Just? && t.index == exclude.value }

  /** The turns as the tail loop meets them, newest first, two characters of separator each. */
  function TailItems(turns: seq<Turn>, exclude: Maybe<nat>): (r: seq<Item>)
    ensures |r| == |turns|
  {
    seq(|turns|, i requires 0 <= i < |turns| =>
      var t := turns[|turns| - 1 - i];
      Item(|FormatTurnBlock(t)| + 2, !Excluded(t, exclude)))
  }

  function TailFlags(turns: seq<Turn>, budget: nat, exclude: Maybe<nat>): (f: seq<bool>)
    ensures |f| == |turns|
  {
    Greedy(TailItems(turns, exclude), |turns|, budget)
  }

  /** The tail blocks in transcript order. */
  function TailBlocks(turns: seq<Turn>, budget: nat, exclude: Maybe<nat>): seq<string> {
    Reversed(Chosen(Blocks(Reversed(turns)), TailFlags(turns, budget, exclude)))
  }

  function TailRecord(t: Turn, exclude: Maybe<nat>, taken: bool): Candidate {
    if Excluded(t, exclude) then NewCandidate(Recent, t.id, |FormatTurnBlock(t)|, Deduplicated, HigherLane, Nothing)
    else if taken then NewCandidate(Recent, t.id, |FormatTurnBlock(t)|, Accepted, WithinBudget, Nothing)
    else NewCandidate(Recent, t.id, |FormatTurnBlock(t)|, Rejected, BudgetLimit, Nothing)
  }

  function TailRecords(turns: seq<Turn>, exclude: Maybe<nat>, f: seq<bool>): (r: seq<Candidate>)
    requires |f| == |turns|
    ensures |r| == |turns|
  {
    seq(|turns|, i requires 0 <= i < |turns| => TailRecord(turns[|turns| - 1 - i], exclude, f[i]))
  }

  lemma TailStep(turns: seq<Turn>, budget: nat, exclude: Maybe<nat>, i: nat)
    requires i < |turns|
    ensures var items := TailItems(turns, exclude);
            var f := Greedy(items[..i], |turns|, budget);
            var taken := items[i].eligible && Spent(items[..i], f) + items[i].cost <= budget;
            && Greedy(items[..i + 1], |turns|, budget) == f + [taken]
            && TailFlags(turns, budget, exclude)[i] == taken
  {
    var items := TailItems(turns, exclude);
    GreedyStep(items, |turns|, budget, i);
    GreedyPrefix(items, |turns|, budget, i + 1);
    assert TailFlags(turns, budget, exclude)[i] == Greedy(items, |turns|, budget)[..i + 1][i];
  }

  /** _select_tail_turn_blocks. */
  method SelectTailTurnBlocks(turns: seq<Turn>, budget: nat, exclude: Maybe<nat>) returns (result: seq<string>)
    ensures result == TailBlocks(turns, budget, exclude)
  {
    hide Greedy, Chosen, Spent, Reversed, TailItems, Blocks, TailFlags, FormatTurnBlock;
    var blocks: seq<string>, used := [], 0;
    ghost var items, all := TailItems(turns, exclude), Blocks(Reversed(turns));
    TailStart(items, all, |turns|, budget);
    for i := 0 to |turns|
      invariant blocks == Chosen(all[..i], Greedy(items[..i], |turns|, budget))
      invariant used == Spent(items[..i], Greedy(items[..i], |turns|, budget))
    {
      ghost var f := Greedy(items[..i], |turns|, budget);
      var turn := turns[|turns| - 1 - i];
      TailItemAt(turns, exclude, i);
      TailStep(turns, budget, exclude, i);
      ghost var taken := items[i].eligible && used + items[i].cost <= budget;
      ChosenStep(all, f, i, taken);
      SpentStep(items, f, i, taken);
      if exclude.Just? && turn.index == exclude.value { continue; }
      var block := FormatTurnBlock(turn);
      var cost := |block| + 2;
      if used + cost > budget { continue; }
      blocks := blocks + [block];
      used := used + cost;
    }
    TailEnd(turns, budget, exclude, items, all, TailRecords(turns, exclude, TailFlags(turns, budget, exclude)));
    return Reversed(blocks);
  }

  lemma TailItemAt(turns: seq<Turn>, exclude: Maybe<nat>, i: nat)
    requires i < |turns|
    ensures var t := turns[|turns| - 1 - i];
            && TailItems(turns, exclude)[i] == Item(|FormatTurnBlock(t)| + 2, !Excluded(t, exclude))
            && Blocks(Reversed(turns))[i] == FormatTurnBlock(t)
  {
  }

  lemma TailStart(items: seq<Item>, all: seq<string>, limit: nat, budget: nat)
    ensures Greedy(items[..0], limit, budget) == [] && Chosen(all[..0], []) == [] && Spent(items[..0], []) == 0
  {
  }

  lemma RecordStart(t: Table, cs: seq<Candidate>)
    ensures RecordAll(t, cs[..0]) == t
  {
  }

  lemma RecordStep(t: Table, cs: seq<Candidate>, i: nat)
    requires i < |cs|
    ensures RecordAll(t, cs[..i + 1]) == Put(RecordAll(t, cs[..i]), cs[i])
  {
    assert cs[..i + 1][..i] == cs[..i];
  }

  /** _instrument_tail_turn_blocks: the same blocks, and one record a turn. */
  method InstrumentTailTurnBlocks(turns: seq<Turn>, budget: nat, exclude: Maybe<nat>, store: CandidateStore)
    returns (result: seq<string>)
    modifies store
    ensures result == TailBlocks(turns, budget, exclude)
    ensures store.table == RecordAll(old(store.table), TailRecords(turns, exclude, TailFlags(turns, budget, exclude)))
  {
    hide Greedy, Chosen, Spent, Put, FormatTurnBlock, TailFlags, CandidateOk, Reversed, TailItems, Blocks;
    var blocks: seq<string>, used := [], 0;
    ghost var items, all := TailItems(turns, exclude), Blocks(Reversed(turns));
    ghost var records := TailRecords(turns, exclude, TailFlags(turns, budget, exclude));
    TailStart(items, all, |turns|, budget);
    for i := 0 to |turns|
      invariant blocks == Chosen(all[..i], Greedy(items[..i], |turns|, budget))
      invariant used == Spent(items[..i], Greedy(items[..i], |turns|, budget))
      invariant store.table == RecordAll(old(store.table), records[..i])
    {
      ghost var f := Greedy(items[..i], |turns|, budget);
      var turn := turns[|turns| - 1 - i];
      TailItemAt(turns, exclude, i);
      TailStep(turns, budget, exclude, i);
      ghost var taken := items[i].eligible && used + items[i].cost <= budget;
      ChosenStep(all, f, i, taken);
      SpentStep(items, f, i, taken);
      RecordStep(old(store.table), records, i);
      TailRecordOk(turn, exclude, taken);
      var block := FormatTurnBlock(turn);
      if exclude.Just? && turn.index == exclude.value {
        var _ := store.Record(Recent, turn.id, block, Deduplicated, HigherLane, Nothing);
        continue;
      }
      var cost := |block| + 2;
      if used + cost > budget {
        var _ := store.Record(Recent, turn.id, block, Rejected, BudgetLimit, Nothing);
        continue;
      }
      var _ := store.Record(Recent, turn.id, block, Accepted, WithinBudget, Nothing);
      blocks := blocks + [block];
      used := used + cost;
    }
    TailEnd(turns, budget, exclude, items, all, records);
    return Reversed(blocks);
  }

  lemma TailEnd(turns: seq<Turn>, budget: nat, exclude: Maybe<nat>, items: seq<Item>, all: seq<string>,
                records: seq<Candidate>)
    requires items == TailItems(turns, exclude) && all == Blocks(Reversed(turns)) && |records| == |turns|
    ensures TailBlocks(turns, budget, exclude) ==
            Reversed(Chosen(all[..|turns|], Greedy(items[..|turns|], |turns|, budget)))
    ensures records[..|turns|] == records
  {
    assert all[..|turns|] == all && items[..|turns|] == items;
  }

  lemma TailRecordOk(t: Turn, exclude: Maybe<nat>, taken: bool)
    ensures var c := TailRecord(t, exclude, taken);
            && CandidateOk(c) && c.id == CandidateId(Recent, t.id)
            && (taken && !Excluded(t, exclude) ==> c.status == Accepted && c.included == |FormatTurnBlock(t)|)
            && (!taken || Excluded(t, exclude) ==> c.status != Accepted && c.included == 0)
  {
  }

  // ------------------------------------------------------------ atoms

  datatype Atom = Atom(id: string, kind: string, canonical: string, quote: string, turnIndex: nat, active: bool)

  function FormatAtomLine(a: Atom): (line: string)
    ensures |line| > 0
  {
    "- (" + a.kind + ") " + a.canonical + " [" + a.quote + "]"
  }

  function Lines(atoms: seq<Atom>): (r: seq<string>)
    ensures |r| == |atoms|
  {
    seq(|atoms|, i requires 0 <= i < |atoms| => FormatAtomLine(atoms[i]))
  }

  function Active(atoms: seq<Atom>): (r: seq<Atom>)
    ensures forall a :: a in r <==> a in atoms && a.active
  {
    if atoms == [] then []
    else Active(atoms[..|atoms| - 1]) + if atoms[|atoms| - 1].active then [atoms[|atoms| - 1]] else []
  }

  /** What is assumed of the sort by priority: it reorders. */
  ghost predicate RankOk(rank: seq<Atom> -> seq<Atom>) {
    forall atoms :: multiset(rank(atoms)) == multiset(atoms)
  }

  function AtomItems(ranked: seq<Atom>): (r: seq<Item>)
    ensures |r| == |ranked|
  {
    seq(|ranked|, i requires 0 <= i < |ranked| => Item(|FormatAtomLine(ranked[i])| + 1, true))
  }

  function AtomFlags(ranked: seq<Atom>, limit: nat, budget: nat): (f: seq<bool>)
    ensures |f| == |ranked|
  {
    Greedy(AtomItems(ranked), limit, budget)
  }

  function SelectedAtoms(atoms: seq<Atom>, rank: seq<Atom> -> seq<Atom>, limit: nat, budget: nat): seq<Atom> {
    var ranked := rank(Active(atoms));
    Chosen(ranked, AtomFlags(ranked, limit, budget))
  }

  function AtomRecord(lane: Lane, a: Atom, taken: bool, full: bool): Candidate {
    if taken then NewCandidate(lane, a.id, |FormatAtomLine(a)|, Accepted, WithinBudget, Nothing)
    else if full then NewCandidate(lane, a.id, |FormatAtomLine(a)|, Rejected, LowPriority, Nothing)
    else NewCandidate(lane, a.id, |FormatAtomLine(a)|, Rejected, BudgetLimit, Nothing)
  }

  function AtomRecords(lane: Lane, ranked: seq<Atom>, f: seq<bool>, limit: nat): (r: seq<Candidate>)
    requires |f| == |ranked|
    ensures |r| == |ranked|
  {
    seq(|ranked|, i requires 0 <= i < |ranked| => AtomRecord(lane, ranked[i], f[i], Taken(f[..i]) >= limit))
  }

  lemma AtomRecordAt(lane: Lane, ranked: seq<Atom>, f: seq<bool>, limit: nat, i: nat)
    requires |f| == |ranked| && i < |ranked|
    ensures AtomRecords(lane, ranked, f, limit)[i] == AtomRecord(lane, ranked[i], f[i], Taken(f[..i]) >= limit)
  {
  }

  lemma AtomItemAt(ranked: seq<Atom>, i: nat)
    requires i < |ranked|
    ensures AtomItems(ranked)[i] == Item(|FormatAtomLine(ranked[i])| + 1, true)
  {
  }

  lemma AtomRecordOk(lane: Lane, a: Atom, taken: bool, full: bool)
    ensures CandidateOk(AtomRecord(lane, a, taken, full))
  {
  }

  lemma AtomStep(ranked: seq<Atom>, limit: nat, budget: nat, i: nat)
    requires i < |ranked|
    ensures var items := AtomItems(ranked);
            var f := Greedy(items[..i], limit, budget);
            var taken := Taken(f) < limit && Spent(items[..i], f) + |FormatAtomLine(ranked[i])| + 1 <= budget;
            && Greedy(items[..i + 1], limit, budget) == f + [taken]
            && AtomFlags(ranked, limit, budget)[i] == taken && AtomFlags(ranked, limit, budget)[..i] == f
  {
    var items := AtomItems(ranked);
    GreedyStep(items, limit, budget, i);
    GreedyPrefix(items, limit, budget, i);
    GreedyPrefix(items, limit, budget, i + 1);
    assert AtomFlags(ranked, limit, budget)[i] == Greedy(items, limit, budget)[..i + 1][i];
  }

  lemma AtomStart(items: seq<Item>, all: seq<Atom>, limit: nat, budget: nat)
    ensures Greedy(items[..0], limit, budget) == [] && Chosen(all[..0], []) == [] && Spent(items[..0], []) == 0
  {
  }

  /** _select_atoms. */
  method SelectAtoms(atoms: seq<Atom>, rank: seq<Atom> -> seq<Atom>, limit: nat, budget: nat)
    returns (selected: seq<Atom>)
    ensures selected == SelectedAtoms(atoms, rank, limit, budget)
  {
    hide Greedy, Chosen, Spent, Taken, FormatAtomLine;
    var ranked := rank(Active(atoms));
    var used, i := 0, 0;
    selected := [];
    ghost var items := AtomItems(ranked);
    AtomStart(items, ranked, limit, budget);
    while i < |ranked|
      invariant 0 <= i <= |ranked|
      invariant selected == Chosen(ranked[..i], Greedy(items[..i], limit, budget))
      invariant used == Spent(items[..i], Greedy(items[..i], limit, budget))
    {
      if |selected| >= limit {
        GreedySaturated(ranked, items, limit, budget, i, |ranked|);
        break;
      }
      var line := FormatAtomLine(ranked[i]);
      var cost := |line| + 1;
      ghost var f := Greedy(items[..i], limit, budget);
      AtomStep(ranked, limit, budget, i);
      ChosenStep(ranked, f, i, used + cost <= budget);
      SpentStep(items, f, i, used + cost <= budget);
      if used + cost <= budget {
        selected := selected + [ranked[i]];
        used := used + cost;
      }
      i := i + 1;
    }
    assert ranked[..|ranked|] == ranked && items[..|ranked|] == items;
  }

  /** _instrument_select_atoms: the same atoms, and one record an active atom. Its
      branch for superseded atoms is never reached, since only active ones are ranked. */
  method InstrumentSelectAtoms(atoms: seq<Atom>, rank: seq<Atom> -> seq<Atom>, limit: nat, budget: nat, lane: Lane,
                               store: CandidateStore)
    returns (selected: seq<Atom>)
    requires RankOk(rank)
    modifies store
    ensures selected == SelectedAtoms(atoms, rank, limit, budget)
    ensures var ranked := rank(Active(atoms));
            store.table == RecordAll(old(store.table),
                                     AtomRecords(lane, ranked, AtomFlags(ranked, limit, budget), limit))
  {
    var ranked := rank(Active(atoms));
    RankedActive(atoms, rank);
    hide Greedy, Chosen, Spent, Taken, FormatAtomLine, Put, AtomFlags, CandidateOk, Active, RankOk, AtomRecords,
         AtomItems, RecordAll;
    var used := 0;
    selected := [];
    ghost var items := AtomItems(ranked);
    ghost var records := AtomRecords(lane, ranked, AtomFlags(ranked, limit, budget), limit);
    RecordStart(old(store.table), records);
    AtomStart(items, ranked, limit, budget);
    for i := 0 to |ranked|
      invariant selected == Chosen(ranked[..i], Greedy(items[..i], limit, budget))
      invariant used == Spent(items[..i], Greedy(items[..i], limit, budget))
      invariant store.table == RecordAll(old(store.table), records[..i])
    {
      var atom := ranked[i];
      assert atom.active;
      var line := FormatAtomLine(atom);
      var cost := |line| + 1;
      ghost var f := Greedy(items[..i], limit, budget);
      ghost var taken := |selected| < limit && used + cost <= budget;
      AtomRecordAt(lane, ranked, AtomFlags(ranked, limit, budget), limit, i);
      AtomItemAt(ranked, i);
      AtomStep(ranked, limit, budget, i);
      ChosenStep(ranked, f, i, taken);
      SpentStep(items, f, i, taken);
      RecordStep(old(store.table), records, i);
      AtomRecordOk(lane, atom, taken, |selected| >= limit);
      if |selected| >= limit {
        var _ := store.Record(lane, atom.id, line, Rejected, LowPriority, Nothing);
        continue;
      }
      if used + cost > budget {
        var _ := store.Record(lane, atom.id, line, Rejected, BudgetLimit, Nothing);
        continue;
      }
      var _ := store.Record(lane, atom.id, line, Accepted, WithinBudget, Nothing);
      selected := selected + [atom];
      used := used + cost;
    }
    AtomEnd(ranked, items, records);
  }

  lemma AtomEnd(ranked: seq<Atom>, items: seq<Item>, records: seq<Candidate>)
    requires |items| == |ranked| == |records|
    ensures ranked[..|ranked|] == ranked && items[..|ranked|] == items && records[..|ranked|] == records
  {
  }

  lemma RankedActive(atoms: seq<Atom>, rank: seq<Atom> -> seq<Atom>)
    requires RankOk(rank)
    ensures forall i :: 0 <= i < |rank(Active(atoms))| ==>
            rank(Active(atoms))[i].active && rank(Active(atoms))[i] in atoms
  {
    var ranked := rank(Active(atoms));
    forall i | 0 <= i < |ranked| ensures ranked[i] in Active(atoms) {
      assert ranked[i] in multiset(ranked);
    }
  }

  // ------------------------------------------------------------ the second filter

  function Total(items: seq<Item>): nat {
    if items == [] then 0 else Total(items[..|items| - 1]) + items[|items| - 1].cost
  }

  lemma {:induction false} TotalGrows(items: seq<Item>, n: nat)
    requires n <= |items|
    ensures Total(items[..n]) <= Total(items)
  {
    if n < |items| {
      TotalGrows(items[..|items| - 1], n);
      assert items[..|items| - 1][..n] == items[..n];
    } else {
      assert items[..n] == items;
    }
  }

  /** _select_atom_blocks: the lines up to the first one that does not fit. */
  method SelectAtomBlocks(atoms: seq<Atom>, budget: nat) returns (lines: seq<string>)
    ensures |lines| <= |atoms| && lines == Lines(atoms)[..|lines|]
    ensures forall i :: 0 <= i < |lines| ==>
              lines[i] == "- (" + atoms[i].kind + ") " + atoms[i].canonical + " [" + atoms[i].quote + "]"
    ensures Total(AtomItems(atoms)[..|lines|]) <= budget
    ensures |lines| < |atoms| ==> Total(AtomItems(atoms)[..|lines| + 1]) > budget
    ensures Total(AtomItems(atoms)) <= budget ==> lines == Lines(atoms)
  {
    var used, i := 0, 0;
    lines := [];
    ghost var items := AtomItems(atoms);
    while i < |atoms|
      invariant 0 <= i <= |atoms| && lines == Lines(atoms)[..i]
      invariant used == Total(items[..i]) <= budget
    {
      var line := FormatAtomLine(atoms[i]);
      var cost := |line| + 1;
      assert items[..i + 1][..i] == items[..i] && items[i].cost == cost;
      TotalGrows(items, i + 1);
      if used + cost > budget { break; }
      lines := lines + [line];
      used := used + cost;
      i := i + 1;
    }
    assert Lines(atoms)[..|atoms|] == Lines(atoms);
  }

  lemma {:induction false} SpentIsTotal(ranked: seq<Atom>, f: seq<bool>)
    requires |f| == |ranked|
    ensures Spent(AtomItems(ranked), f) == Total(AtomItems(Chosen(ranked, f)))
  {
    if ranked != [] {
      var n := |ranked| - 1;
      SpentIsTotal(ranked[..n], f[..n]);
      assert AtomItems(ranked)[..n] == AtomItems(ranked[..n]);
      var before := Chosen(ranked[..n], f[..n]);
      if f[n] {
        assert AtomItems(before + [ranked[n]])[..|before|] == AtomItems(before);
      } else {
        assert Chosen(ranked, f) == before;
      }
    }
  }

  /** Filtering the selected atoms again with the same budget drops nothing. */
  lemma RefilterKeepsAll(atoms: seq<Atom>, rank: seq<Atom> -> seq<Atom>, limit: nat, budget: nat)
    ensures var selected := SelectedAtoms(atoms, rank, limit, budget);
            && Total(AtomItems(selected)) <= budget && |selected| <= limit
  {
    var ranked := rank(Active(atoms));
    GreedyFits(AtomItems(ranked), limit, budget);
    SpentIsTotal(ranked, AtomFlags(ranked, limit, budget));
  }
}
