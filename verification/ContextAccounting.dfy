/** Whether the numbers of an assembled context pass the manifest constructor:
    they do exactly when no unit of the context lists an accepted id twice. */
module ContextAccounting {
  import opened Common
  import opened RetrievalManifest
  import opened ContextSelection
  import opened ContextAssembly

  // ------------------------------------------------------------ lane usage

  function UsageOf(cs: seq<Candidate>, lane: Lane, formatting: int): LaneUsage {
    LaneUsage(lane, Budget(lane), IncludedIn(cs, lane) + formatting, formatting,
              AcceptedIn(cs, lane), RejectedIn(cs, lane), DeduplicatedIn(cs, lane))
  }

  const LANE_ORDER: seq<Lane> := [Current, Recent, Working, Retrieved]

  lemma LaneStep(cs: seq<Candidate>, c: Candidate, lane: Lane)
    ensures IncludedIn(cs + [c], lane) == IncludedIn(cs, lane) + if c.id.lane == lane then c.included else 0
    ensures AcceptedIn(cs + [c], lane) ==
            AcceptedIn(cs, lane)
            + if c.id.lane == lane && c.status in {Accepted, AcceptedTruncated} && c.included > 0 then 1 else 0
    ensures RejectedIn(cs + [c], lane) ==
            RejectedIn(cs, lane) + if c.id.lane == lane && c.status == Rejected then 1 else 0
    ensures DeduplicatedIn(cs + [c], lane) ==
            DeduplicatedIn(cs, lane) + if c.id.lane == lane && c.status == Deduplicated then 1 else 0
  {
    assert (cs + [c])[..|cs|] == cs;
  }

  /** The record of one lane, summed and counted over its candidates. */
  method LaneUsageOf(cs: seq<Candidate>, lane: Lane, formatting: int) returns (u: LaneUsage)
    ensures LaneAgrees(cs, u) && u.lane == lane && u.budget == Budget(lane) && u.formatting == formatting
  {
    hide IncludedIn, AcceptedIn, RejectedIn, DeduplicatedIn;
    var included, accepted, rejected, deduplicated := 0, 0, 0, 0;
    assert cs[..0] == [];
    NothingIn(lane);
    for i := 0 to |cs|
      invariant included == IncludedIn(cs[..i], lane) && accepted == AcceptedIn(cs[..i], lane)
      invariant rejected == RejectedIn(cs[..i], lane) && deduplicated == DeduplicatedIn(cs[..i], lane)
    {
      var c := cs[i];
      LaneStep(cs[..i], c, lane);
      assert cs[..i + 1] == cs[..i] + [c];
      if c.id.lane == lane {
        included := included + c.included;
        if (c.status == Accepted || c.status == AcceptedTruncated) && c.included > 0 { accepted := accepted + 1; }
        if c.status == Rejected { rejected := rejected + 1; }
        if c.status == Deduplicated { deduplicated := deduplicated + 1; }
      }
    }
    assert cs[..|cs|] == cs;
    u := LaneUsage(lane, Budget(lane), included + formatting, formatting, accepted, rejected, deduplicated);
  }

  lemma NothingIn(lane: Lane)
    ensures IncludedIn([], lane) == AcceptedIn([], lane) == RejectedIn([], lane) == DeduplicatedIn([], lane) == 0
  {
  }

  /** _build_lane_usage: whatever the candidates are, each lane's record adds up as the
      manifest constructor will check it. */
  method BuildLaneUsage(cs: seq<Candidate>, laneFormatting: map<Lane, int>) returns (usage: seq<LaneUsage>)
    ensures |usage| == 4
    ensures forall i :: 0 <= i < 4 ==>
              && LaneAgrees(cs, usage[i]) && usage[i].lane == LANE_ORDER[i] && usage[i].budget == Budget(LANE_ORDER[i])
              && usage[i].formatting == if LANE_ORDER[i] in laneFormatting then laneFormatting[LANE_ORDER[i]] else 0
  {
    hide LaneAgrees;
    usage := [];
    for n := 0 to |LANE_ORDER|
      invariant |usage| == n
      invariant forall i :: 0 <= i < n ==>
                  && LaneAgrees(cs, usage[i]) && usage[i].lane == LANE_ORDER[i]
                       && usage[i].budget == Budget(LANE_ORDER[i])
                  && usage[i].formatting == if LANE_ORDER[i] in laneFormatting then laneFormatting[LANE_ORDER[i]] else 0
    {
      var lane := LANE_ORDER[n];
      var u := LaneUsageOf(cs, lane, if lane in laneFormatting then laneFormatting[lane] else 0);
      usage := usage + [u];
    }
  }

  /** A record that adds up is determined by its lane and its formatting. */
  lemma AgreesIsUsageOf(cs: seq<Candidate>, u: LaneUsage)
    requires LaneAgrees(cs, u) && u.budget == Budget(u.lane)
    ensures u == UsageOf(cs, u.lane, u.formatting)
  {
  }

  // ------------------------------------------------------------ units that describe a table

  ghost predicate UnitOk(u: Unit, t: Table) {
    && u.body != "" && AllIn(u.ids, t)
    && (forall k :: k in u.ids ==> k.lane == u.lane)
    && ListSum(u.ids, t.at) <= |u.body| && ListSum(u.ids, t.at) <= Budget(u.lane)
  }

  ghost predicate Lists(units: seq<Unit>, k: CandidateId) {
    exists i :: 0 <= i < |units| && units[i].lane == k.lane && k in units[i].ids
  }

  /** One unit a lane at most, and everything included is listed by its lane's unit. */
  ghost predicate UnitsOk(units: seq<Unit>, t: Table) {
    && TableOk(t)
    && (forall i :: 0 <= i < |units| ==> UnitOk(units[i], t))
    && (forall i, j :: 0 <= i < j < |units| ==> units[i].lane != units[j].lane)
    && (forall k :: k in t.at && t.at[k].included > 0 ==> Lists(units, k))
  }

  lemma UnitsKnown(units: seq<Unit>, t: Table)
    requires UnitsOk(units, t)
    ensures IdsKnown(units, t)
  {
    forall i | 0 <= i < |units| ensures AllIn(units[i].ids, t) {
      assert UnitOk(units[i], t);
    }
  }

  ghost predicate HitByDrop(units: seq<Unit>, n: nat, total: nat, k: CandidateId)
    requires n <= |units|
  {
    exists i :: 0 <= i < n && Dropped(units, i, total) && k in units[i].ids
  }

  lemma {:induction false} TableAfterAt(units: seq<Unit>, n: nat, total: nat, t: Table, k: CandidateId)
    requires n <= |units| && TableOk(t) && IdsKnown(units, t) && k in t.at
    ensures k in TableAfter(units, n, total, t).at
    ensures TableAfter(units, n, total, t).at[k] ==
            if HitByDrop(units, n, total, k) then Discarded(t.at[k]) else t.at[k]
  {
    hide TableOk, Dropped, DiscardAll;
    if n > 0 {
      TableAfterAt(units, n - 1, total, t, k);
      TableAfterOk(units, n - 1, total, t);
      assert AllIn(units[n - 1].ids, t);
      var before := TableAfter(units, n - 1, total, t);
      DiscardAllMeaning(before, units[n - 1].ids);
      assert HitByDrop(units, n, total, k) <==>
             HitByDrop(units, n - 1, total, k) || (Dropped(units, n - 1, total) && k in units[n - 1].ids);
    }
  }

  lemma {:induction false} ListSumSame(ids: seq<CandidateId>, a: map<CandidateId, Candidate>,
                                       b: map<CandidateId, Candidate>)
    requires forall k :: k in ids ==> k in a && k in b && a[k] == b[k]
    ensures ListSum(ids, a) == ListSum(ids, b)
  {
    if ids != [] { ListSumSame(ids[..|ids| - 1], a, b); }
  }

  /** Earlier units do not touch the candidates of a later one. */
  lemma ListSumAfter(units: seq<Unit>, n: nat, total: nat, t: Table)
    requires n < |units| && UnitsOk(units, t) && IdsKnown(units, t)
    ensures AllIn(units[n].ids, TableAfter(units, n, total, t))
    ensures ListSum(units[n].ids, TableAfter(units, n, total, t).at) == ListSum(units[n].ids, t.at)
  {
    assert AllIn(units[n].ids, t) && UnitOk(units[n], t);
    var after := TableAfter(units, n, total, t);
    forall k | k in units[n].ids ensures k in after.at && after.at[k] == t.at[k] {
      TableAfterAt(units, n, total, t, k);
      assert !HitByDrop(units, n, total, k) by {
        forall i | 0 <= i < n ensures k !in units[i].ids {
          assert UnitOk(units[i], t) && units[i].lane != units[n].lane && k.lane == units[n].lane;
        }
      }
    }
    ListSumSame(units[n].ids, after.at, t.at);
  }

  // ------------------------------------------------------------ characters by lane

  /** The characters that the units of a lane among the first n add to the context. */
  ghost function UsedBy(units: seq<Unit>, n: nat, total: nat, lane: Lane): nat
    requires n <= |units|
  {
    if n == 0 then 0
    else UsedBy(units, n - 1, total, lane)
         + if units[n - 1].lane == lane && Fits(units, n - 1, total) then CostOf(units, n - 1, total) else 0
  }

  lemma {:induction false} UsedSplits(units: seq<Unit>, n: nat, total: nat)
    requires n <= |units|
    ensures |Join(Before(units, n, total), SEPARATOR)| ==
            UsedBy(units, n, total, Current) + UsedBy(units, n, total, Recent)
            + UsedBy(units, n, total, Working) + UsedBy(units, n, total, Retrieved)
  {
    if n > 0 {
      UsedSplits(units, n - 1, total);
      BeforeStep(units, n - 1, total);
      var u := units[n - 1];
      JoinStep(Before(units, n - 1, total), BlockOf(u.header, u.body));
      assert Before(units, n - 1, total) + [] == Before(units, n - 1, total);
      hide Join, BlockOf, Before, CostAfter, Fits;
      match u.lane case Current => case Recent => case Working => case Retrieved =>
    } else {
      NothingBefore(units, total);
    }
  }

  /** The unit of a lane, if it has one. */
  ghost predicate IsUnitOf(units: seq<Unit>, lane: Lane, k: int) {
    0 <= k < |units| && units[k].lane == lane
  }

  lemma {:induction false} NoUnit(units: seq<Unit>, n: nat, total: nat, t: Table, lane: Lane)
    requires n <= |units| && IdsKnown(units, t)
    requires forall i :: 0 <= i < n ==> units[i].lane != lane
    ensures UsedBy(units, n, total, lane) == 0 && Formatting(units, n, total, t, lane) == 0
  {
    if n > 0 { NoUnit(units, n - 1, total, t, lane); }
  }

  lemma {:induction false} OneUnit(units: seq<Unit>, n: nat, total: nat, t: Table, k: nat)
    requires k < n <= |units| && UnitsOk(units, t) && IdsKnown(units, t)
    ensures AllIn(units[k].ids, t)
    ensures UsedBy(units, n, total, units[k].lane) == if Fits(units, k, total) then CostOf(units, k, total) else 0
    ensures Formatting(units, n, total, t, units[k].lane) ==
            if Fits(units, k, total) then CostOf(units, k, total) - ListSum(units[k].ids, t.at) else 0
  {
    hide Fits, CostOf, TableAfter, TableOk, ListSum;
    assert AllIn(units[k].ids, t);
    if n - 1 == k {
      NoUnit(units, k, total, t, units[k].lane) by {
        forall i | 0 <= i < k ensures units[i].lane != units[k].lane {}
      }
      ListSumAfter(units, k, total, t);
    } else {
      OneUnit(units, n - 1, total, t, k);
    }
  }

  /** A unit of the context lists an accepted id of this lane twice. */
  ghost predicate Repeats(units: seq<Unit>, total: nat, t: Table, lane: Lane) {
    exists k :: IsUnitOf(units, lane, k) && Fits(units, k, total) && CountedTwice(units[k].ids, t.at)
  }

  ghost function FinalSum(units: seq<Unit>, total: nat, t: Table, lane: Lane): nat
    requires IdsKnown(units, t) && TableOk(t)
  {
    var after := TableAfter(units, |units|, total, t);
    TableAfterOk(units, |units|, total, t);
    IncludedIn(Values(after.keys, after.at), lane)
  }

  lemma FinalSumWithout(units: seq<Unit>, total: nat, t: Table, lane: Lane)
    requires UnitsOk(units, t) && IdsKnown(units, t)
    requires forall k :: IsUnitOf(units, lane, k) ==> Dropped(units, k, total)
    ensures FinalSum(units, total, t, lane) == 0
  {
    var after := TableAfter(units, |units|, total, t);
    TableAfterOk(units, |units|, total, t);
    forall k | k in after.keys
      ensures k in after.at && (k.lane == lane ==> after.at[k].included == 0) && after.at[k].id == k
    {
      assert k in t.at;
      TableAfterAt(units, |units|, total, t, k);
      if k.lane == lane && t.at[k].included > 0 {
        assert Lists(units, k);
        var i :| 0 <= i < |units| && units[i].lane == k.lane && k in units[i].ids;
        assert IsUnitOf(units, lane, i);
        assert HitByDrop(units, |units|, total, k);
      }
    }
    NothingIncluded(after, after.keys, lane);
  }

  lemma FinalSumKept(units: seq<Unit>, total: nat, t: Table, i: nat)
    requires UnitsOk(units, t) && IdsKnown(units, t) && i < |units| && Fits(units, i, total)
    ensures FinalSum(units, total, t, units[i].lane) == IncludedIn(Values(t.keys, t.at), units[i].lane)
  {
    var lane := units[i].lane;
    var after := TableAfter(units, |units|, total, t);
    TableAfterOk(units, |units|, total, t);
    forall k | k in t.keys
      ensures k in after.at && k in t.at && after.at[k].id == k == t.at[k].id
              && (k.lane == lane ==> after.at[k] == t.at[k])
    {
      assert k in t.at;
      TableAfterAt(units, |units|, total, t, k);
      if k.lane == lane {
        forall j | 0 <= j < |units| && Dropped(units, j, total) ensures k !in units[j].ids {
          assert j != i && UnitOk(units[j], t) && units[j].lane != lane;
        }
        assert !HitByDrop(units, |units|, total, k);
      }
    }
    SameLaneSum(t.keys, after.at, t.at, lane);
  }

  /** A block is at least as long as its body. */
  lemma CostBound(units: seq<Unit>, k: nat, total: nat)
    requires k < |units|
    ensures CostOf(units, k, total) >= |units[k].body|
  {
  }

  /** One lane's account. */
  lemma LaneAccount(units: seq<Unit>, total: nat, t: Table, lane: Lane)
    requires UnitsOk(units, t) && IdsKnown(units, t)
    ensures var formatting, included := Formatting(units, |units|, total, t, lane), FinalSum(units, total, t, lane);
            && formatting >= 0 && included <= Budget(lane)
            && included + formatting <= UsedBy(units, |units|, total, lane)
            && (included + formatting == UsedBy(units, |units|, total, lane) <==> !Repeats(units, total, t, lane))
  {
    hide Fits, CostOf, TableAfter, FinalSum, ListSum, Formatting, UsedBy, CountedTwice;
    if k :| IsUnitOf(units, lane, k) {
      OneUnit(units, |units|, total, t, k);
      CostBound(units, k, total);
      assert UnitOk(units[k], t);
      if Fits(units, k, total) {
        FinalSumKept(units, total, t, k);
        LaneListed(units, t, k);
        LaneAgainstList(t, lane, units[k].ids);
        assert Repeats(units, total, t, lane) <==> CountedTwice(units[k].ids, t.at) by {
          forall j | IsUnitOf(units, lane, j) ensures j == k {}
        }
      } else {
        FinalSumWithout(units, total, t, lane);
      }
    } else {
      forall i | 0 <= i < |units| ensures units[i].lane != lane { assert !IsUnitOf(units, lane, i); }
      NoUnit(units, |units|, total, t, lane);
      FinalSumWithout(units, total, t, lane);
    }
  }

  lemma LaneListed(units: seq<Unit>, t: Table, i: nat)
    requires UnitsOk(units, t) && i < |units|
    ensures forall k :: k in t.at && k.lane == units[i].lane && t.at[k].included > 0 ==> k in units[i].ids
  {
    forall k | k in t.at && k.lane == units[i].lane && t.at[k].included > 0 ensures k in units[i].ids {
      assert Lists(units, k);
      var j :| 0 <= j < |units| && units[j].lane == k.lane && k in units[j].ids;
      assert j == i;
    }
  }

  // ------------------------------------------------------------ the manifest

  /** The candidates after the assembly. */
  ghost function FinalCandidates(units: seq<Unit>, t: Table): seq<Candidate>
    requires IdsKnown(units, t) && TableOk(t)
  {
    var after := TableAfter(units, |units|, TOTAL_BUDGET_CHARS, t);
    TableAfterOk(units, |units|, TOTAL_BUDGET_CHARS, t);
    Values(after.keys, after.at)
  }

  ghost function LaneOf(units: seq<Unit>, t: Table, lane: Lane): LaneUsage
    requires IdsKnown(units, t) && TableOk(t)
  {
    UsageOf(FinalCandidates(units, t), lane, Formatting(units, |units|, TOTAL_BUDGET_CHARS, t, lane))
  }

  /** The manifest of an assembled context, as _compile_context builds it. */
  ghost function ManifestOf(units: seq<Unit>, t: Table): Manifest
    requires IdsKnown(units, t) && TableOk(t)
  {
    var cs := FinalCandidates(units, t);
    var used := |Assembled(Pairs(units), TOTAL_BUDGET_CHARS)|;
    Manifest(used, used - IncludedSum(cs), cs,
             [LaneOf(units, t, Current), LaneOf(units, t, Recent), LaneOf(units, t, Working),
              LaneOf(units, t, Retrieved)])
  }

  lemma ValuesOk(t: Table)
    requires TableOk(t)
    ensures DistinctIds(Values(t.keys, t.at)) && forall c :: c in Values(t.keys, t.at) ==> CandidateOk(c)
  {
    var cs := Values(t.keys, t.at);
    forall i, j | 0 <= i < j < |cs| ensures cs[i].id != cs[j].id {
      assert t.keys[i] in t.at && t.keys[j] in t.at;
    }
    forall c | c in cs ensures CandidateOk(c) {
      var i :| 0 <= i < |cs| && cs[i] == c;
      assert t.keys[i] in t.at;
    }
  }

  /** Some unit of the context lists an accepted id twice. */
  ghost predicate CountsTwice(units: seq<Unit>, total: nat, t: Table) {
    exists k :: 0 <= k < |units| && Fits(units, k, total) && CountedTwice(units[k].ids, t.at)
  }

  lemma CountsTwiceByLane(units: seq<Unit>, total: nat, t: Table)
    ensures CountsTwice(units, total, t) <==>
            Repeats(units, total, t, Current) || Repeats(units, total, t, Recent)
            || Repeats(units, total, t, Working) || Repeats(units, total, t, Retrieved)
  {
    hide Fits, CountedTwice;
    if k :| 0 <= k < |units| && Fits(units, k, total) && CountedTwice(units[k].ids, t.at) {
      assert IsUnitOf(units, units[k].lane, k);
      assert Repeats(units, total, t, units[k].lane);
      match units[k].lane case Current => case Recent => case Working => case Retrieved =>
    }
  }

  lemma FourUsed(us: seq<LaneUsage>)
    requires |us| == 4
    ensures UsedSum(us) == us[0].used + us[1].used + us[2].used + us[3].used
  {
    assert us[1..][1..] == us[2..] && us[2..][1..] == us[3..] && us[3..][1..] == [];
    assert UsedSum(us[1..]) == us[1].used + UsedSum(us[2..]);
    assert UsedSum(us[2..]) == us[2].used + UsedSum(us[3..]);
  }

  /** Included plus formatting is what was used, lane totals sum to it, every
      lane is within its budget and the context within 12000 characters: the
      manifest is accepted exactly when no unit of the context counts an id twice. */
  lemma ManifestAccepted(units: seq<Unit>, t: Table)
    requires UnitsOk(units, t) && IdsKnown(units, t)
    ensures ManifestOk(ManifestOf(units, t)) <==> !CountsTwice(units, TOTAL_BUDGET_CHARS, t)
  {
    LanesSum(units, t);
    AssembledFits(Pairs(units), TOTAL_BUDGET_CHARS);
    TableAfterOk(units, |units|, TOTAL_BUDGET_CHARS, t);
    ValuesOk(TableAfter(units, |units|, TOTAL_BUDGET_CHARS, t));
    SumByLane(FinalCandidates(units, t));
    FourUsed(ManifestOf(units, t).usage);
    LaneIsUsage(units, t, Current);
    LaneIsUsage(units, t, Recent);
    LaneIsUsage(units, t, Working);
    LaneIsUsage(units, t, Retrieved);
    hide FinalCandidates, LaneOf, UsedSum, IncludedIn, IncludedSum, CountIn, CountsTwice, Assembled, TableOk, UnitsOk,
         IdsKnown, DistinctIds, CandidateOk, LaneUsageOk, LaneAgrees;
  }

  lemma LaneIsUsage(units: seq<Unit>, t: Table, lane: Lane)
    requires IdsKnown(units, t) && TableOk(t)
    ensures var u := LaneOf(units, t, lane);
            && u.lane == lane && LaneAgrees(FinalCandidates(units, t), u)
            && u.used == IncludedIn(FinalCandidates(units, t), lane) + u.formatting
  {
  }

  /** The lanes of the manifest are in order and sum to what was used exactly when
      nothing is counted twice; they never sum to more. */
  lemma LanesSum(units: seq<Unit>, t: Table)
    requires UnitsOk(units, t) && IdsKnown(units, t)
    ensures var used := |Assembled(Pairs(units), TOTAL_BUDGET_CHARS)|;
            var c, r, w, v := LaneOf(units, t, Current), LaneOf(units, t, Recent), LaneOf(units, t, Working),
                LaneOf(units, t, Retrieved);
            && LaneUsageOk(c) && LaneUsageOk(r) && LaneUsageOk(w) && LaneUsageOk(v)
            && c.used + r.used + w.used + v.used <= used
            && (c.used + r.used + w.used + v.used == used <==> !CountsTwice(units, TOTAL_BUDGET_CHARS, t))
  {
    var total := TOTAL_BUDGET_CHARS;
    assert units[..|units|] == units;
    UsedSplits(units, |units|, total);
    CountsTwiceByLane(units, total, t);
    hide LaneOf, UsedBy, Repeats, CountsTwice, Join, Before, LaneUsageOk;
    LaneNumbers(units, t, Current);
    LaneNumbers(units, t, Recent);
    LaneNumbers(units, t, Working);
    LaneNumbers(units, t, Retrieved);
  }

  lemma LaneNumbers(units: seq<Unit>, t: Table, lane: Lane)
    requires UnitsOk(units, t) && IdsKnown(units, t)
    ensures var u := LaneOf(units, t, lane);
            && LaneUsageOk(u)
            && u.used <= UsedBy(units, |units|, TOTAL_BUDGET_CHARS, lane)
            && (u.used == UsedBy(units, |units|, TOTAL_BUDGET_CHARS, lane) <==>
                !Repeats(units, TOTAL_BUDGET_CHARS, t, lane))
  {
    LaneAccount(units, TOTAL_BUDGET_CHARS, t, lane);
    hide Formatting, UsedBy, IncludedIn, CountIn, Repeats, TableAfter, TableOk, UnitsOk, IdsKnown, Values;
  }
}
