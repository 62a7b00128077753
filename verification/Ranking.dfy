/** Score quantisation and the total order shared by the Python and C++ rankers
    (score_ranking.py, and try_quantize_score / hit_is_better in search_engine.cpp). */
module Ranking {
  import opened Common

  /** A score as both runtimes see it: exact reals stand for finite floats. */
  datatype Score = Finite(value: real) | NonFinite

  datatype Quantized = Quantized(q: int) | OutOfRange

  const SCORE_SCALE := 1000000.0
  const INT64_MIN := -0x8000_0000_0000_0000
  const INT64_MAX := 0x7FFF_FFFF_FFFF_FFFF

  /** quantize_score of the Python side; OutOfRange is RankingAnomalyError. */
  function QuantizeScore(score: Score): Quantized {
    match score
    case NonFinite => OutOfRange
    case Finite(v) =>
      var q := (v * SCORE_SCALE + 0.5).Floor;
      if INT64_MIN <= q <= INT64_MAX then Quantized(q) else OutOfRange
  }

  /** try_quantize_score of the C++ side: the rounded value stays a real until
      both range comparisons have been made, the upper one being half open. */
  function TryQuantizeScore(score: Score): Quantized {
    if score.NonFinite? then OutOfRange
    else
      var rounded := (score.value * SCORE_SCALE + 0.5).Floor as real;
      if rounded < -9223372036854775808.0 || rounded >= 9223372036854775808.0 then OutOfRange
      else Quantized(rounded.Floor)
  }

  /** Both runtimes accept the same scores and give them the same rank value. */
  lemma QuantizersAgree(score: Score)
    ensures QuantizeScore(score) == TryQuantizeScore(score)
    ensures score.Finite? && QuantizeScore(score).Quantized? ==>
              var q := QuantizeScore(score).q as real;
              q - 0.5 <= score.value * SCORE_SCALE < q + 0.5
  {
    if score.Finite? {
      var q := (score.value * SCORE_SCALE + 0.5).Floor;
      assert (q as real).Floor == q;
      assert q as real >= 9223372036854775808.0 <==> q > INT64_MAX;
    }
  }

  datatype Hit = Hit(score: Score, scoreQ: int, id: int)

  /** hit_is_better, and the comparison of two score_order_key tuples. */
  predicate Better(lhs: Hit, rhs: Hit) {
    if lhs.scoreQ != rhs.scoreQ then lhs.scoreQ > rhs.scoreQ else lhs.id < rhs.id
  }

  ghost predicate DistinctIds(all: set<Hit>) {
    forall a, b :: a in all && b in all && a.id == b.id ==> a == b
  }

  /** No later hit is better than an earlier one. */
  ghost predicate Sorted(hits: seq<Hit>) {
    forall i, j :: 0 <= i < j < |hits| ==> !Better(hits[j], hits[i])
  }

  /** Every earlier hit is strictly better. */
  ghost predicate Ordered(hits: seq<Hit>) {
    forall i, j :: 0 <= i < j < |hits| ==> Better(hits[i], hits[j])
  }

  ghost function Elements(hits: seq<Hit>): set<Hit> {
    set h | h in hits
  }

  /** The reference answer: r lists, best first, k hits of all that beat every
      other hit, or all of them when there are fewer than k. */
  ghost predicate IsTopK(r: seq<Hit>, all: set<Hit>, k: nat) {
    && Ordered(r)
    && |r| <= k
    && (forall h :: h in r ==> h in all)
    && (forall h :: h in all && h !in r ==> |r| == k && forall x :: x in r ==> Better(x, h))
  }

  lemma SameAt(r1: seq<Hit>, r2: seq<Hit>, all: set<Hit>, k: nat, i: nat)
    requires DistinctIds(all) && IsTopK(r1, all, k) && IsTopK(r2, all, k)
    requires i < |r1| && i < |r2|
    requires forall j :: 0 <= j < i ==> r1[j] == r2[j]
    ensures r1[i] == r2[i]
  {
    var a, b := r1[i], r2[i];
    assert a in r1 && b in r2;
    // a sits at or after i in r2 or is beaten by every hit of r2; likewise b in r1
    assert a in r2 ==> exists j :: i <= j < |r2| && r2[j] == a;
    assert b in r1 ==> exists j :: i <= j < |r1| && r1[j] == b;
    assert a == b || Better(a, b) || Better(b, a);
  }

  lemma {:induction false} SamePrefix(r1: seq<Hit>, r2: seq<Hit>, all: set<Hit>, k: nat, n: nat)
    requires DistinctIds(all) && IsTopK(r1, all, k) && IsTopK(r2, all, k)
    requires n <= |r1| && n <= |r2|
    ensures r1[..n] == r2[..n]
  {
    if n > 0 {
      SamePrefix(r1, r2, all, k, n - 1);
      forall j | 0 <= j < n - 1 ensures r1[j] == r2[j] {
        assert r1[..n - 1][j] == r2[..n - 1][j];
      }
      SameAt(r1, r2, all, k, n - 1);
    }
  }

  lemma NotShorter(r1: seq<Hit>, r2: seq<Hit>, all: set<Hit>, k: nat)
    requires DistinctIds(all) && IsTopK(r1, all, k) && IsTopK(r2, all, k)
    ensures |r1| >= |r2|
  {
    if |r1| < |r2| {
      SamePrefix(r1, r2, all, k, |r1|);
      var h := r2[|r1|];
      assert h in r2;
      forall j | 0 <= j < |r1| ensures r1[j] != h {
        assert r1[..|r1|][j] == r2[..|r1|][j];
      }
      assert false;
    }
  }

  /** The reference answer is unique: any two rankers that meet IsTopK agree hit by hit. */
  lemma TopKUnique(r1: seq<Hit>, r2: seq<Hit>, all: set<Hit>, k: nat)
    requires DistinctIds(all) && IsTopK(r1, all, k) && IsTopK(r2, all, k)
    ensures r1 == r2
  {
    NotShorter(r1, r2, all, k);
    NotShorter(r2, r1, all, k);
    SamePrefix(r1, r2, all, k, |r1|);
    assert r1[..|r1|] == r1 && r2[..|r2|] == r2;
  }

  lemma {:induction false} OrderedSize(r: seq<Hit>)
    requires Ordered(r)
    ensures |Elements(r)| == |r|
  {
    if r != [] {
      OrderedSize(r[1..]);
      assert Elements(r) == {r[0]} + Elements(r[1..]);
      assert r[0] !in r[1..];
    }
  }

  /** Pruning to k inside each part loses nothing: the k best of s and of the
      k best of t are the k best of both. */
  lemma TopKOfParts(r: seq<Hit>, s: set<Hit>, o: seq<Hit>, t: set<Hit>, k: nat)
    requires DistinctIds(s + t)
    requires IsTopK(o, t, k) && IsTopK(r, s + Elements(o), k)
    ensures IsTopK(r, s + t, k)
  {
    OrderedSize(r);
    OrderedSize(o);
    forall h | h in s + t && h !in r ensures |r| == k && forall x :: x in r ==> Better(x, h) {
      if h !in s + Elements(o) {
        assert h in t && h !in o;
        if |r| < k {
          assert Elements(o) <= Elements(r);
          SubsetSize(Elements(o), Elements(r));
        }
        forall x | x in r ensures Better(x, h) {
          if !Better(x, h) {
            assert x.id != h.id;
            assert Better(h, x);
            assert x !in o;
            forall y | y in o ensures y in r {
              assert Better(y, h);
              assert Better(y, x);
            }
            assert Elements(o) <= Elements(r) - {x};
            SubsetSize(Elements(o), Elements(r) - {x});
          }
        }
      }
    }
  }

  /** A better hit than one of the k best is one of them. */
  lemma BetterIsIn(t: seq<Hit>, all: set<Hit>, k: nat, h: Hit, x: Hit)
    requires IsTopK(t, all, k) && h in t && x in all && Better(x, h)
    ensures x in t
  {
  }

  /** The parts of a set, each cut to its own cap. */
  ghost predicate CutParts(all: set<Hit>, parts: seq<set<Hit>>, lists: seq<seq<Hit>>, caps: seq<nat>,
                           united: set<Hit>) {
    && |parts| == |lists| == |caps|
    && (forall h :: h in all <==> exists j :: 0 <= j < |parts| && h in parts[j])
    && (forall i, j :: 0 <= i < j < |parts| ==> parts[i] !! parts[j])
    && (forall j :: 0 <= j < |parts| ==> IsTopK(lists[j], parts[j], caps[j]))
    && (forall h :: h in united <==> exists j :: 0 <= j < |lists| && h in lists[j])
  }

  lemma FitsUnderCap(t: seq<Hit>, all: set<Hit>, k: nat, part: set<Hit>, list: seq<Hit>, cap: nat, h: Hit)
    requires IsTopK(t, all, k) && part <= all && IsTopK(list, part, cap)
    requires |Elements(t) * part| <= cap && h in t && h in part
    ensures h in list
  {
    OrderedSize(list);
    if h !in list {
      forall y | y in list ensures y in t { BetterIsIn(t, all, k, h, y); }
      SubsetSize(Elements(list) + {h}, Elements(t) * part);
    }
  }

  /** Merging parts that were cut at their own caps gives the k best exactly when
      no part holds more of them than its cap. */
  lemma CutPartsExact(t: seq<Hit>, r: seq<Hit>, all: set<Hit>, parts: seq<set<Hit>>, lists: seq<seq<Hit>>,
                      caps: seq<nat>, united: set<Hit>, k: nat)
    requires DistinctIds(all) && IsTopK(t, all, k)
    requires CutParts(all, parts, lists, caps, united) && IsTopK(r, united, k)
    ensures IsTopK(r, all, k) <==> forall j :: 0 <= j < |parts| ==> |Elements(t) * parts[j]| <= caps[j]
  {
    forall h | h in united ensures h in all {
      var j :| 0 <= j < |lists| && h in lists[j];
      assert h in parts[j];
    }
    if IsTopK(r, all, k) {
      TopKUnique(r, t, all, k);
      forall j | 0 <= j < |parts| ensures |Elements(t) * parts[j]| <= caps[j] {
        forall h | h in Elements(t) * parts[j] ensures h in lists[j] {
          var i :| 0 <= i < |lists| && h in lists[i];
          assert h in parts[i];
        }
        OrderedSize(lists[j]);
        SubsetSize(Elements(t) * parts[j], Elements(lists[j]));
      }
    }
    if forall j :: 0 <= j < |parts| ==> |Elements(t) * parts[j]| <= caps[j] {
      forall h | h in t ensures h in united {
        var j :| 0 <= j < |parts| && h in parts[j];
        FitsUnderCap(t, all, k, parts[j], lists[j], caps[j], h);
      }
      assert IsTopK(t, united, k);
      TopKUnique(r, t, united, k);
    }
  }

  // ------------------------------------------------------------ the order in the scores themselves

  /** Finite, and its value in millionths, rounded half up, fits a signed 64-bit word. */
  ghost predicate Rankable(score: Score) {
    && score.Finite?
    && -9223372036854775808 <= (score.value * 1000000.0 + 0.5).Floor <= 9223372036854775807
  }

  lemma RankableMeaning(score: Score)
    ensures TryQuantizeScore(score).Quantized? <==> Rankable(score)
    ensures Rankable(score) ==> TryQuantizeScore(score) == Quantized((score.value * 1000000.0 + 0.5).Floor)
  {
    QuantizersAgree(score);
  }

  /** In the scores: the larger value in millionths first, on equal ones the smaller id. */
  ghost predicate BestFirst(r: seq<Hit>) {
    && (forall h :: h in r ==> Rankable(h.score))
    && (forall i, j :: 0 <= i < j < |r| ==>
          var a, b := (r[i].score.value * 1000000.0 + 0.5).Floor, (r[j].score.value * 1000000.0 + 0.5).Floor;
          a > b || (a == b && r[i].id < r[j].id))
  }

  /** The candidate is listed, or the list has k hits and each of them is better in the scores. */
  ghost predicate ListedOrBeaten(r: seq<Hit>, k: int, id: int, score: Score) {
    || (exists h :: h in r && h.id == id && h.score == score)
    || (&& |r| == k && Rankable(score)
        && forall h :: h in r && Rankable(h.score) ==>
             var a, b := (h.score.value * 1000000.0 + 0.5).Floor, (score.value * 1000000.0 + 0.5).Floor;
             a > b || (a == b && h.id < id))
  }

  /** Each hit carries the rank value of its score. */
  ghost predicate RankValued(all: set<Hit>) {
    forall h :: h in all ==> Rankable(h.score) && h.scoreQ == (h.score.value * 1000000.0 + 0.5).Floor
  }

  /** The reference answer, read in the scores. */
  lemma TopKInScores(r: seq<Hit>, all: set<Hit>, k: nat)
    requires IsTopK(r, all, k) && RankValued(all)
    ensures BestFirst(r) && |r| <= k
    ensures forall h :: h in all ==> ListedOrBeaten(r, k, h.id, h.score)
    ensures forall i, j :: 0 <= i < j < |r| ==>
              && r[i].score.Finite? && r[j].score.Finite?
              && var a, b := (r[i].score.value * 1000000.0 + 0.5).Floor, (r[j].score.value * 1000000.0 + 0.5).Floor;
                 a > b || (a == b && r[i].id < r[j].id)
    ensures forall h, x :: h in all && h !in r && x in r ==>
              && |r| == k && h.score.Finite? && x.score.Finite?
              && var a, b := (x.score.value * 1000000.0 + 0.5).Floor, (h.score.value * 1000000.0 + 0.5).Floor;
                 a > b || (a == b && x.id < h.id)
  {
  }
}
