/** The budget accounting of retrieval_manifest.py: candidates, the insertion-ordered
    candidate table, lane usage and the checks of the manifest constructor. */
module RetrievalManifest {

  const TOTAL_BUDGET_CHARS := 12000

  datatype Lane = Current | Recent | Working | Retrieved

  function Budget(lane: Lane): nat {
    match lane
    case Current => 2400
    case Recent => 3600
    case Working => 4000
    case Retrieved => 2000
  }

  datatype Status = Accepted | AcceptedTruncated | Rejected | Deduplicated

  datatype Reason =
    | RequiredCurrent | WithinBudget | TruncatedToBudget
    | BudgetLimit | TotalBudget | LowPriority | Superseded
    | HigherLane

  /** make_candidate_id: a lane never contains the colon that follows it. */
  datatype CandidateId = CandidateId(lane: Lane, document: string)

  datatype Candidate = Candidate(id: CandidateId, charCount: nat, included: nat, status: Status, reason: Reason)

  predicate StatusReasonAllowed(s: Status, r: Reason) {
    match s
    case Accepted => r in {RequiredCurrent, WithinBudget}
    case AcceptedTruncated => r == TruncatedToBudget
    case Rejected => r in {BudgetLimit, TotalBudget, LowPriority, Superseded}
    case Deduplicated => r == HigherLane
  }

  /** RetrievalCandidateV1.__post_init__. */
  predicate CandidateOk(c: Candidate) {
    && c.included <= c.charCount
    && StatusReasonAllowed(c.status, c.reason)
    && match c.status
       case Accepted => c.included == c.charCount
       case AcceptedTruncated => 0 < c.included < c.charCount
       case _ => c.included == 0
  }

  /** Which candidates the constructor lets through: whole under one of two reasons, cut under
      one, left out under one of four, or shown by a higher lane. */
  lemma CandidateMeaning(c: Candidate)
    ensures CandidateOk(c) <==>
            || (c.status == Accepted && c.included == c.charCount
                && (c.reason == RequiredCurrent || c.reason == WithinBudget))
            || (c.status == AcceptedTruncated && 0 < c.included < c.charCount && c.reason == TruncatedToBudget)
            || (c.status == Rejected && c.included == 0
                && (c.reason == BudgetLimit || c.reason == TotalBudget || c.reason == LowPriority
                    || c.reason == Superseded))
            || (c.status == Deduplicated && c.included == 0 && c.reason == HigherLane)
  {
  }

  // ------------------------------------------------------------ the candidate table

  /** A dict: its keys in insertion order and its values. */
  datatype Table = Table(keys: seq<CandidateId>, at: map<CandidateId, Candidate>)

  ghost predicate TableOk(t: Table) {
    && (forall i, j :: 0 <= i < j < |t.keys| ==> t.keys[i] != t.keys[j])
    && (forall k :: k in t.keys <==> k in t.at)
    && (forall k :: k in t.at ==> t.at[k].id == k && CandidateOk(t.at[k]))
  }

  function Put(t: Table, c: Candidate): (r: Table)
    ensures TableOk(t) && CandidateOk(c) ==> TableOk(r)
  {
    Table(if c.id in t.at then t.keys else t.keys + [c.id], t.at[c.id := c])
  }

  function Values(keys: seq<CandidateId>, at: map<CandidateId, Candidate>): (r: seq<Candidate>)
    requires forall k :: k in keys ==> k in at
    ensures |r| == |keys| && forall i :: 0 <= i < |r| ==> r[i] == at[keys[i]]
  {
    if keys == [] then [] else Values(keys[..|keys| - 1], at) + [at[keys[|keys| - 1]]]
  }

  // ------------------------------------------------------------ sums

  /** The included characters of the candidates of one lane. */
  function IncludedIn(cs: seq<Candidate>, lane: Lane): nat {
    if cs == [] then 0
    else IncludedIn(cs[..|cs| - 1], lane) + if cs[|cs| - 1].id.lane == lane then cs[|cs| - 1].included else 0
  }

  function IncludedSum(cs: seq<Candidate>): nat {
    if cs == [] then 0 else IncludedSum(cs[..|cs| - 1]) + cs[|cs| - 1].included
  }

  lemma {:induction false} SumByLane(cs: seq<Candidate>)
    ensures IncludedSum(cs) ==
            IncludedIn(cs, Current) + IncludedIn(cs, Recent) + IncludedIn(cs, Working) + IncludedIn(cs, Retrieved)
  {
    if cs != [] { SumByLane(cs[..|cs| - 1]); }
  }

  function CountIn(cs: seq<Candidate>, lane: Lane, statuses: set<Status>, nonempty: bool): nat {
    if cs == [] then 0
    else
      var c := cs[|cs| - 1];
      CountIn(cs[..|cs| - 1], lane, statuses, nonempty)
      + if c.id.lane == lane && c.status in statuses && (nonempty ==> c.included > 0) then 1 else 0
  }

  function AcceptedIn(cs: seq<Candidate>, lane: Lane): nat { CountIn(cs, lane, {Accepted, AcceptedTruncated}, true) }
  function RejectedIn(cs: seq<Candidate>, lane: Lane): nat { CountIn(cs, lane, {Rejected}, false) }
  function DeduplicatedIn(cs: seq<Candidate>, lane: Lane): nat { CountIn(cs, lane, {Deduplicated}, false) }

  /** How many candidates satisfy p. */
  ghost function Places(cs: seq<Candidate>, p: Candidate -> bool): set<nat> { set i: nat | i < |cs| && p(cs[i]) }

  lemma PlacesStep(cs: seq<Candidate>, p: Candidate -> bool)
    requires cs != []
    ensures |Places(cs, p)| == |Places(cs[..|cs| - 1], p)| + if p(cs[|cs| - 1]) then 1 else 0
  {
    var n := |cs| - 1;
    var before := Places(cs[..n], p);
    assert n !in before;
    assert Places(cs, p) == before + if p(cs[n]) then {n} else {};
  }

  /** The counts of a lane are how many of its candidates were included, rejected and found
      in a higher lane. */
  lemma {:induction false} LaneCounts(cs: seq<Candidate>, lane: Lane)
    ensures AcceptedIn(cs, lane) ==
            |Places(cs, (c: Candidate) => c.id.lane == lane && (c.status.Accepted? || c.status.AcceptedTruncated?)
                                          && c.included > 0)|
    ensures RejectedIn(cs, lane) == |Places(cs, (c: Candidate) => c.id.lane == lane && c.status.Rejected?)|
    ensures DeduplicatedIn(cs, lane) == |Places(cs, (c: Candidate) => c.id.lane == lane && c.status.Deduplicated?)|
  {
    var p := (c: Candidate) => c.id.lane == lane && (c.status.Accepted? || c.status.AcceptedTruncated?)
                               && c.included > 0;
    var q := (c: Candidate) => c.id.lane == lane && c.status.Rejected?;
    var r := (c: Candidate) => c.id.lane == lane && c.status.Deduplicated?;
    if cs != [] {
      LaneCounts(cs[..|cs| - 1], lane);
      PlacesStep(cs, p);
      PlacesStep(cs, q);
      PlacesStep(cs, r);
    }
  }

  // ------------------------------------------------------------ lane usage and manifest

  datatype LaneUsage = LaneUsage(lane: Lane, budget: nat, used: int, formatting: int,
                                 accepted: nat, rejected: nat, deduplicated: nat)

  /** LaneUsageV1.__post_init__. */
  predicate LaneUsageOk(u: LaneUsage) {
    && u.budget == Budget(u.lane)
    && 0 <= u.formatting <= u.used
    && u.used - u.formatting <= u.budget
  }

  datatype Manifest = Manifest(used: nat, overhead: int, candidates: seq<Candidate>, usage: seq<LaneUsage>)

  predicate DistinctIds(cs: seq<Candidate>) {
    forall i, j :: 0 <= i < j < |cs| ==> cs[i].id != cs[j].id
  }

  function UsedSum(us: seq<LaneUsage>): int {
    if us == [] then 0 else us[0].used + UsedSum(us[1..])
  }

  /** The part of RetrievalManifestV1.__post_init__ about numbers, with the
      constructors of its candidates and lanes. */
  predicate ManifestOk(m: Manifest) {
    && (forall c :: c in m.candidates ==> CandidateOk(c))
    && (forall u :: u in m.usage ==> LaneUsageOk(u))
    && m.used <= TOTAL_BUDGET_CHARS
    && 0 <= m.overhead
    && DistinctIds(m.candidates)
    && |m.usage| == 4
    && m.usage[0].lane == Current && m.usage[1].lane == Recent
    && m.usage[2].lane == Working && m.usage[3].lane == Retrieved
    && IncludedSum(m.candidates) + m.overhead == m.used
    && UsedSum(m.usage) == m.used
    && forall u :: u in m.usage ==> LaneAgrees(m.candidates, u)
  }

  predicate LaneAgrees(cs: seq<Candidate>, u: LaneUsage) {
    && u.accepted == AcceptedIn(cs, u.lane)
    && u.rejected == RejectedIn(cs, u.lane)
    && u.deduplicated == DeduplicatedIn(cs, u.lane)
    && IncludedIn(cs, u.lane) + u.formatting == u.used
  }

  lemma UsedOfFour(us: seq<LaneUsage>)
    requires |us| == 4
    ensures UsedSum(us) == us[0].used + us[1].used + us[2].used + us[3].used
  {
    var one, two, three := us[1..], us[2..], us[3..];
    assert one[1..] == two && two[1..] == three && three[1..] == [];
    assert UsedSum(three) == us[3].used + UsedSum([]);
    assert UsedSum(two) == us[2].used + UsedSum(three);
    assert UsedSum(one) == us[1].used + UsedSum(two);
  }

  /** What an accepted manifest promises: the four lanes in order, each within its own budget,
      their characters adding up to those of the context, and every number the one that its
      candidates, each listed once, give. */
  lemma ManifestPromises(m: Manifest)
    requires ManifestOk(m)
    ensures m.used <= 12000 && 0 <= m.overhead && IncludedSum(m.candidates) + m.overhead == m.used
    ensures forall i, j :: 0 <= i < j < |m.candidates| ==> m.candidates[i].id != m.candidates[j].id
    ensures forall c :: c in m.candidates ==> CandidateOk(c)
    ensures |m.usage| == 4 && m.usage[0].used + m.usage[1].used + m.usage[2].used + m.usage[3].used == m.used
    ensures forall i :: 0 <= i < 4 ==>
              var u := m.usage[i];
              && u.lane == [Current, Recent, Working, Retrieved][i] && u.budget == [2400, 3600, 4000, 2000][i]
              && 0 <= u.formatting && 0 <= u.used - u.formatting <= u.budget
              && u.used - u.formatting == IncludedIn(m.candidates, u.lane)
              && u.accepted == AcceptedIn(m.candidates, u.lane) && u.rejected == RejectedIn(m.candidates, u.lane)
              && u.deduplicated == DeduplicatedIn(m.candidates, u.lane)
  {
    UsedOfFour(m.usage);
    forall i | 0 <= i < 4
      ensures LaneUsageOk(m.usage[i]) && LaneAgrees(m.candidates, m.usage[i])
      ensures m.usage[i].lane == [Current, Recent, Working, Retrieved][i]
      ensures Budget(m.usage[i].lane) == [2400, 3600, 4000, 2000][i]
    {
      assert m.usage[i] in m.usage;
    }
  }

  // ------------------------------------------------------------ listed twice

  /** The included characters of a list of ids, each as often as it is listed. */
  function ListSum(ids: seq<CandidateId>, at: map<CandidateId, Candidate>): nat
    requires forall k :: k in ids ==> k in at
  {
    if ids == [] then 0 else ListSum(ids[..|ids| - 1], at) + at[ids[|ids| - 1]].included
  }

  /** An id whose characters are counted more than once by the list. */
  ghost predicate CountedTwice(ids: seq<CandidateId>, at: map<CandidateId, Candidate>) {
    exists k :: k in at && multiset(ids)[k] >= 2 && at[k].included > 0
  }

  function Weighted(keys: seq<CandidateId>, at: map<CandidateId, Candidate>, lane: Lane, m: multiset<CandidateId>): nat
    requires forall k :: k in keys ==> k in at
  {
    if keys == [] then 0
    else
      var k := keys[|keys| - 1];
      Weighted(keys[..|keys| - 1], at, lane, m) + if k.lane == lane then m[k] * at[k].included else 0
  }

  lemma {:induction false} WeightedAdd(keys: seq<CandidateId>, at: map<CandidateId, Candidate>, lane: Lane,
                                       m: multiset<CandidateId>, x: CandidateId)
    requires forall k :: k in keys ==> k in at
    requires forall i, j :: 0 <= i < j < |keys| ==> keys[i] != keys[j]
    requires x.lane == lane
    ensures Weighted(keys, at, lane, m + multiset{x}) ==
            Weighted(keys, at, lane, m) + if x in keys then at[x].included else 0
  {
    if keys != [] {
      var k := keys[|keys| - 1];
      WeightedAdd(keys[..|keys| - 1], at, lane, m, x);
      assert x in keys <==> x == k || x in keys[..|keys| - 1];
      if k == x {
        assert (m[k] + 1) * at[k].included == m[k] * at[k].included + at[k].included;
      }
    }
  }

  lemma {:induction false} WeightedNone(keys: seq<CandidateId>, at: map<CandidateId, Candidate>, lane: Lane)
    requires forall k :: k in keys ==> k in at
    ensures Weighted(keys, at, lane, multiset{}) == 0
  {
    if keys != [] { WeightedNone(keys[..|keys| - 1], at, lane); }
  }

  lemma {:induction false} ListIsWeighted(keys: seq<CandidateId>, at: map<CandidateId, Candidate>, lane: Lane,
                                          ids: seq<CandidateId>)
    requires forall k :: k in keys ==> k in at
    requires forall i, j :: 0 <= i < j < |keys| ==> keys[i] != keys[j]
    requires forall k :: k in ids ==> k in keys && k.lane == lane
    ensures ListSum(ids, at) == Weighted(keys, at, lane, multiset(ids))
  {
    if ids == [] {
      WeightedNone(keys, at, lane);
    } else {
      var n := |ids| - 1;
      assert ids == ids[..n] + [ids[n]];
      ListIsWeighted(keys, at, lane, ids[..n]);
      WeightedAdd(keys, at, lane, multiset(ids[..n]), ids[n]);
      assert multiset(ids) == multiset(ids[..n]) + multiset{ids[n]};
    }
  }

  ghost predicate Doubled(keys: seq<CandidateId>, at: map<CandidateId, Candidate>, lane: Lane, m: multiset<CandidateId>)
    requires forall k :: k in keys ==> k in at
  {
    exists k :: k in keys && k.lane == lane && m[k] >= 2 && at[k].included > 0
  }

  lemma {:induction false} WeightedAtLeast(keys: seq<CandidateId>, at: map<CandidateId, Candidate>, lane: Lane,
                                           m: multiset<CandidateId>)
    requires forall k :: k in keys ==> k in at && at[k].id == k
    requires forall k :: k in keys && k.lane == lane && at[k].included > 0 ==> m[k] >= 1
    ensures IncludedIn(Values(keys, at), lane) <= Weighted(keys, at, lane, m)
    ensures IncludedIn(Values(keys, at), lane) == Weighted(keys, at, lane, m) <==> !Doubled(keys, at, lane, m)
  {
    if keys != [] {
      var n := |keys| - 1;
      var k := keys[n];
      assert keys == keys[..n] + [k];
      WeightedAtLeast(keys[..n], at, lane, m);
      DoubledStep(keys, at, lane, m);
      IncludedStep(keys, at, lane);
      var part := WeightedPart(keys, at, lane, m);
      hide Doubled, IncludedIn, Values, Weighted;
    }
  }

  /** What the last key weighs: no less than what it includes, and more if it is doubled. */
  lemma WeightedPart(keys: seq<CandidateId>, at: map<CandidateId, Candidate>, lane: Lane, m: multiset<CandidateId>)
    returns (part: nat)
    requires keys != [] && forall k :: k in keys ==> k in at
    requires var k := keys[|keys| - 1]; k.lane == lane && at[k].included > 0 ==> m[k] >= 1
    ensures Weighted(keys, at, lane, m) == Weighted(keys[..|keys| - 1], at, lane, m) + part
    ensures var k := keys[|keys| - 1];
            var own := if k.lane == lane then at[k].included else 0;
            part >= own && (part == own <==> !(k.lane == lane && m[k] >= 2 && at[k].included > 0))
  {
    var k := keys[|keys| - 1];
    var v := at[k].included;
    part := if k.lane == lane then m[k] * v else 0;
    if k.lane == lane {
      if v > 0 { Times(m[k], v); } else { assert m[k] * 0 == 0; }
    }
  }

  lemma IncludedStep(keys: seq<CandidateId>, at: map<CandidateId, Candidate>, lane: Lane)
    requires keys != [] && forall k :: k in keys ==> k in at && at[k].id == k
    ensures var n := |keys| - 1;
            IncludedIn(Values(keys, at), lane) ==
            IncludedIn(Values(keys[..n], at), lane) + if keys[n].lane == lane then at[keys[n]].included else 0
  {
    var n := |keys| - 1;
    assert keys[n] in keys;
    assert Values(keys, at)[..n] == Values(keys[..n], at);
  }

  lemma DoubledStep(keys: seq<CandidateId>, at: map<CandidateId, Candidate>, lane: Lane, m: multiset<CandidateId>)
    requires keys != [] && forall k :: k in keys ==> k in at
    ensures var n := |keys| - 1;
            var k := keys[n];
            Doubled(keys, at, lane, m) <==>
            Doubled(keys[..n], at, lane, m) || (k.lane == lane && m[k] >= 2 && at[k].included > 0)
  {
    var n := |keys| - 1;
    assert keys == keys[..n] + [keys[n]];
  }

  lemma Times(a: nat, v: nat)
    requires a >= 1 && v > 0
    ensures a * v >= v && (a * v == v <==> a == 1)
  {
    assert a * v == v + (a - 1) * v;
    if a > 1 { assert (a - 1) * v >= v; }
  }

  /** A lane's sum over the table against the sum over the ids its unit lists:
      they differ exactly when some accepted id is listed twice. */
  lemma LaneAgainstList(t: Table, lane: Lane, ids: seq<CandidateId>)
    requires TableOk(t) && forall k :: k in ids ==> k in t.at && k.lane == lane
    requires forall k :: k in t.at && k.lane == lane && t.at[k].included > 0 ==> k in ids
    ensures IncludedIn(Values(t.keys, t.at), lane) <= ListSum(ids, t.at)
    ensures IncludedIn(Values(t.keys, t.at), lane) == ListSum(ids, t.at) <==> !CountedTwice(ids, t.at)
  {
    ListIsWeighted(t.keys, t.at, lane, ids);
    forall k | k in t.keys && k.lane == lane && t.at[k].included > 0 ensures multiset(ids)[k] >= 1 {
      assert k in ids && k in multiset(ids);
    }
    WeightedAtLeast(t.keys, t.at, lane, multiset(ids));
    forall k | k in t.at && multiset(ids)[k] >= 2 ensures k in t.keys && k.lane == lane {
      assert k in multiset(ids) && k in ids;
    }
  }

  lemma {:induction false} NothingIncluded(t: Table, keys: seq<CandidateId>, lane: Lane)
    requires forall k :: k in keys ==> k in t.at && (k.lane == lane ==> t.at[k].included == 0) && t.at[k].id == k
    ensures IncludedIn(Values(keys, t.at), lane) == 0
  {
    if keys != [] {
      NothingIncluded(t, keys[..|keys| - 1], lane);
      assert Values(keys, t.at)[..|keys| - 1] == Values(keys[..|keys| - 1], t.at);
    }
  }

  /** Two tables that agree on a lane have the same sum in it. */
  lemma {:induction false} SameLaneSum(keys: seq<CandidateId>, a: map<CandidateId, Candidate>,
                                       b: map<CandidateId, Candidate>, lane: Lane)
    requires forall k :: k in keys ==> k in a && k in b && a[k].id == k == b[k].id && (k.lane == lane ==> a[k] == b[k])
    ensures IncludedIn(Values(keys, a), lane) == IncludedIn(Values(keys, b), lane)
  {
    if keys != [] {
      var n := |keys| - 1;
      SameLaneSum(keys[..n], a, b, lane);
      assert Values(keys, a)[..n] == Values(keys[..n], a) && Values(keys, b)[..n] == Values(keys[..n], b);
    }
  }
}
