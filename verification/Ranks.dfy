/** _rank_transform of coupling.py: ranks of the values that are present, ties
    averaged, mapped linearly onto [-1, 1]. */
module Ranks {

  // ------------------------------------------------------------ ranks by counting

  function Less(vals: seq<real>, v: real): nat {
    if vals == [] then 0 else Less(vals[..|vals| - 1], v) + if vals[|vals| - 1] < v then 1 else 0
  }

  function Equal(vals: seq<real>, v: real): nat {
    if vals == [] then 0 else Equal(vals[..|vals| - 1], v) + if vals[|vals| - 1] == v then 1 else 0
  }

  /** Twice the average of the positions Less .. Less + Equal - 1. */
  function TwiceRank(vals: seq<real>, v: real): int { 2 * Less(vals, v) + Equal(vals, v) - 1 }

  function TiedRank(vals: seq<real>, v: real): real { TwiceRank(vals, v) as real / 2.0 }

  /** The linear map of the ranks 0 .. n - 1 onto [-1, 1]. */
  function Stretch(rank: real, n: nat): real
    requires n >= 2
  {
    rank / (n - 1) as real * 2.0 - 1.0
  }

  function Mapped(vals: seq<real>, v: real): real
    requires |vals| >= 2
  {
    Stretch(TiedRank(vals, v), |vals|)
  }

  lemma {:induction false} NoneHere(vals: seq<real>, v: real)
    ensures (forall j :: 0 <= j < |vals| ==> vals[j] > v) ==> Less(vals, v) == 0 && Equal(vals, v) == 0
    ensures (forall j :: 0 <= j < |vals| ==> vals[j] < v) ==> Less(vals, v) == |vals| && Equal(vals, v) == 0
  {
    if vals != [] { NoneHere(vals[..|vals| - 1], v); }
  }

  /** A value that all others are above, or below. */
  lemma {:induction false} EndCounts(vals: seq<real>, i: nat)
    requires i < |vals|
    ensures (forall j :: 0 <= j < |vals| && j != i ==> vals[j] > vals[i]) ==>
              Less(vals, vals[i]) == 0 && Equal(vals, vals[i]) == 1
    ensures (forall j :: 0 <= j < |vals| && j != i ==> vals[j] < vals[i]) ==>
              Less(vals, vals[i]) == |vals| - 1 && Equal(vals, vals[i]) == 1
  {
    var n := |vals| - 1;
    if i < n { EndCounts(vals[..n], i); } else { NoneHere(vals[..n], vals[n]); }
  }

  /** The one smallest value is mapped to -1 and the one largest to 1. */
  lemma MappedEnds(vals: seq<real>, i: nat)
    requires i < |vals| && |vals| >= 2
    ensures (forall j :: 0 <= j < |vals| && j != i ==> vals[j] > vals[i]) ==> Mapped(vals, vals[i]) == -1.0
    ensures (forall j :: 0 <= j < |vals| && j != i ==> vals[j] < vals[i]) ==> Mapped(vals, vals[i]) == 1.0
  {
    EndCounts(vals, i);
    assert (2 * (|vals| - 1)) as real / 2.0 == (|vals| - 1) as real;
    SelfRatio((|vals| - 1) as real);
  }

  lemma SelfRatio(x: real)
    requires x > 0.0
    ensures x / x == 1.0
  {
  }

  lemma {:induction false} CountsFit(vals: seq<real>, v: real, w: real)
    requires v < w
    ensures Less(vals, v) + Equal(vals, v) <= Less(vals, w)
    ensures Less(vals, w) + Equal(vals, w) <= |vals|
  {
    if vals != [] { CountsFit(vals[..|vals| - 1], v, w); }
  }

  lemma {:induction false} Present(vals: seq<real>, v: real)
    requires v in vals
    ensures Equal(vals, v) >= 1
  {
    var n := |vals| - 1;
    if vals[n] != v {
      assert vals == vals[..n] + [vals[n]];
      Present(vals[..n], v);
    }
  }

  /** Ranks keep order and equality, and lie between 0 and the last position. */
  lemma RanksOrder(vals: seq<real>, v: real, w: real)
    requires v in vals && w in vals
    ensures v < w <==> TwiceRank(vals, v) < TwiceRank(vals, w)
    ensures 0 <= TwiceRank(vals, v) <= 2 * (|vals| - 1)
  {
    Present(vals, v);
    Present(vals, w);
    CountsFit(vals, v - 1.0, v);
    if v < w { CountsFit(vals, v, w); }
    if w < v { CountsFit(vals, w, v); }
  }

  /** So do the mapped values, inside [-1, 1]. */
  lemma MappedOrder(vals: seq<real>, v: real, w: real)
    requires v in vals && w in vals && |vals| >= 2
    ensures v < w <==> Mapped(vals, v) < Mapped(vals, w)
    ensures v == w <==> Mapped(vals, v) == Mapped(vals, w)
    ensures -1.0 <= Mapped(vals, v) <= 1.0
  {
    RanksOrder(vals, v, w);
    RanksOrder(vals, w, v);
    Linear(TwiceRank(vals, v) as real, TwiceRank(vals, w) as real, (|vals| - 1) as real);
  }

  lemma Linear(a: real, b: real, n: real)
    requires n > 0.0 && 0.0 <= a <= 2.0 * n
    ensures var x, y := a / 2.0 / n * 2.0 - 1.0, b / 2.0 / n * 2.0 - 1.0;
            && (a < b <==> x < y) && (a == b <==> x == y) && -1.0 <= x <= 1.0
  {
    var p, q := a / 2.0 / n, b / 2.0 / n;
    assert p * n == a / 2.0 && q * n == b / 2.0;
    Scale(p, q, n);
    Scale(q, p, n);
    Scale(p, 0.0, n);
    Scale(p, 1.0, n);
    Scale(1.0, p, n);
  }

  lemma Scale(p: real, q: real, n: real)
    requires n > 0.0
    ensures p < q <==> p * n < q * n
  {
    assert (q - p) * n == q * n - p * n;
    Sign(q - p, n);
  }

  lemma Sign(d: real, n: real)
    requires n > 0.0
    ensures d > 0.0 <==> d * n > 0.0
  {
    assert d > 0.0 ==> d * n > 0.0;
    assert d <= 0.0 ==> d * n <= 0.0;
  }

  // ------------------------------------------------------------ the rank sum

  function TwiceSum(some: seq<real>, vals: seq<real>): int {
    if some == [] then 0 else TwiceSum(some[..|some| - 1], vals) + TwiceRank(vals, some[|some| - 1])
  }

  lemma CountStep(vals: seq<real>, w: real, v: real)
    ensures Less(vals + [w], v) == Less(vals, v) + if w < v then 1 else 0
    ensures Equal(vals + [w], v) == Equal(vals, v) + if w == v then 1 else 0
  {
    assert (vals + [w])[..|vals|] == vals;
  }

  lemma {:induction false} SumGrows(some: seq<real>, vals: seq<real>, w: real)
    ensures TwiceSum(some, vals + [w]) == TwiceSum(some, vals) + 2 * |some| - 2 * Less(some, w) - Equal(some, w)
  {
    if some != [] {
      SumGrows(some[..|some| - 1], vals, w);
      CountStep(vals, w, some[|some| - 1]);
    }
  }

  /** Averaging ties keeps the sum of the ranks. */
  lemma {:induction false} RankSum(vals: seq<real>)
    ensures TwiceSum(vals, vals) == |vals| * (|vals| - 1)
  {
    if vals != [] {
      var n := |vals| - 1;
      var before, w := vals[..n], vals[n];
      assert vals == before + [w];
      RankSum(before);
      SumGrows(before, before, w);
      CountStep(before, w, w);
      assert n * (n - 1) + 2 * n == (n + 1) * n;
    }
  }

  function MappedSum(some: seq<real>, vals: seq<real>): real
    requires |vals| >= 2
  {
    if some == [] then 0.0 else MappedSum(some[..|some| - 1], vals) + Mapped(vals, some[|some| - 1])
  }

  /** s * n is t - k * n. */
  ghost predicate Balanced(s: real, n: real, t: real, k: real) { s * n == t - k * n }

  lemma {:induction false} MappedSumIs(some: seq<real>, vals: seq<real>)
    requires |vals| >= 2
    ensures Balanced(MappedSum(some, vals), (|vals| - 1) as real, TwiceSum(some, vals) as real, |some| as real)
  {
    var n := (|vals| - 1) as real;
    if some == [] {
      Nothing(n);
    } else {
      hide Balanced, Mapped, TwiceRank;
      var k := |some| - 1;
      MappedSumIs(some[..k], vals);
      MappedTimes(vals, some[k]);
      Add(MappedSum(some[..k], vals), Mapped(vals, some[k]), n, TwiceSum(some[..k], vals) as real,
          TwiceRank(vals, some[k]) as real, k as real);
    }
  }

  lemma Nothing(n: real)
    ensures Balanced(0.0, n, 0.0, 0.0)
  {
  }

  lemma Add(s: real, m: real, n: real, t: real, u: real, k: real)
    requires Balanced(s, n, t, k) && Balanced(m, n, u, 1.0)
    ensures Balanced(s + m, n, t + u, k + 1.0)
  {
    assert (s + m) * n == s * n + m * n;
    assert (k + 1.0) * n == k * n + 1.0 * n;
  }

  lemma MappedTimes(vals: seq<real>, v: real)
    requires |vals| >= 2
    ensures Balanced(Mapped(vals, v), (|vals| - 1) as real, TwiceRank(vals, v) as real, 1.0)
  {
    OneMapped(TwiceRank(vals, v) as real, (|vals| - 1) as real);
  }

  lemma OneMapped(t: real, n: real)
    requires n > 0.0
    ensures (t / 2.0 / n * 2.0 - 1.0) * n == t - n
  {
    var p := t / 2.0 / n;
    assert p * n == t / 2.0;
    assert (p * 2.0 - 1.0) * n == 2.0 * (p * n) - n;
  }

  /** The mapped values sum to zero. */
  lemma MappedSumZero(vals: seq<real>)
    requires |vals| >= 2
    ensures MappedSum(vals, vals) == 0.0
  {
    RankSum(vals);
    MappedSumIs(vals, vals);
    var n := (|vals| - 1) as real;
    assert (|vals| * (|vals| - 1)) as real == |vals| as real * n;
    ZeroFactor(MappedSum(vals, vals), n);
  }

  lemma ZeroFactor(s: real, n: real)
    requires s * n == 0.0 && n > 0.0
    ensures s == 0.0
  {
  }

  // ------------------------------------------------------------ the transform

  /** What the sort must do: name every position once, in the order of the values. */
  ghost predicate IsArgsort(vals: seq<real>, order: seq<nat>) {
    && |order| == |vals|
    && (forall k :: 0 <= k < |order| ==> order[k] < |vals|)
    && (forall k, l :: 0 <= k < l < |order| ==> order[k] != order[l])
    && (forall p :: 0 <= p < |vals| ==> p in order)
    && (forall k, l :: 0 <= k < l < |order| ==> vals[order[k]] <= vals[order[l]])
  }

  /** Every list of values has such an order. */
  lemma {:induction false} SomeArgsort(vals: seq<real>) returns (order: seq<nat>)
    ensures IsArgsort(vals, order)
  {
    if vals == [] {
      order := [];
    } else {
      var n := |vals| - 1;
      var before := SomeArgsort(vals[..n]);
      var p := 0;
      while p < n && vals[before[p]] <= vals[n]
        invariant 0 <= p <= n && forall k :: 0 <= k < p ==> vals[before[k]] <= vals[n]
      {
        p := p + 1;
      }
      order := before[..p] + [n] + before[p..];
      InsertedOrder(vals, before, p);
    }
  }

  lemma InsertedAt(before: seq<nat>, n: nat, p: nat, k: nat)
    requires p <= |before| && k <= |before|
    ensures (before[..p] + [n] + before[p..])[k] ==
            if k < p then before[k] else if k == p then n else before[k - 1]
  {
  }

  lemma InsertedSorted(vals: seq<real>, before: seq<nat>, p: nat, k: nat, l: nat)
    requires vals != [] && IsArgsort(vals[..|vals| - 1], before) && p <= |before| && k < l <= |before|
    requires forall k :: 0 <= k < p ==> vals[before[k]] <= vals[|vals| - 1]
    requires p < |before| ==> vals[before[p]] > vals[|vals| - 1]
    ensures var order := before[..p] + [|vals| - 1] + before[p..];
            && order[k] < |vals| && order[l] < |vals| && order[k] != order[l] && vals[order[k]] <= vals[order[l]]
  {
    var n := |vals| - 1;
    InsertedAt(before, n, p, k);
    InsertedAt(before, n, p, l);
    var i, j := if k < p then k else k - 1, if l < p then l else l - 1;
    if k != p && l != p {
      assert vals[..n][before[i]] <= vals[..n][before[j]];
    } else if k == p && p < j {
      assert vals[..n][before[p]] <= vals[..n][before[j]];
    }
  }

  lemma InsertedOrder(vals: seq<real>, before: seq<nat>, p: nat)
    requires vals != [] && IsArgsort(vals[..|vals| - 1], before) && p <= |before|
    requires forall k :: 0 <= k < p ==> vals[before[k]] <= vals[|vals| - 1]
    requires p < |before| ==> vals[before[p]] > vals[|vals| - 1]
    ensures IsArgsort(vals, before[..p] + [|vals| - 1] + before[p..])
  {
    var n := |vals| - 1;
    var order := before[..p] + [n] + before[p..];
    forall q | 0 <= q < |vals| ensures q in order {
      if q < n {
        assert q < |vals[..n]| && q in before;
        assert before == before[..p] + before[p..];
      }
    }
    forall k | 0 <= k < |order| ensures order[k] < |vals| { InsertedAt(before, n, p, k); }
    forall k, l | 0 <= k < l < |order| ensures order[k] != order[l] && vals[order[k]] <= vals[order[l]] {
      InsertedSorted(vals, before, p, k, l);
    }
  }

  ghost function SortedBy(vals: seq<real>, order: seq<nat>): seq<real> {
    seq(|order|, k requires 0 <= k < |order| => if order[k] < |vals| then vals[order[k]] else 0.0)
  }

  lemma {:induction false} CountsConcat(a: seq<real>, b: seq<real>, v: real)
    ensures Less(a + b, v) == Less(a, v) + Less(b, v) && Equal(a + b, v) == Equal(a, v) + Equal(b, v)
  {
    if b == [] {
      assert a + b == a;
    } else {
      var n := |b| - 1;
      assert a + b == (a + b[..n]) + [b[n]] && b == b[..n] + [b[n]];
      CountsConcat(a, b[..n], v);
      CountStep(a + b[..n], b[n], v);
    }
  }

  function Without(b: seq<real>, j: nat): (r: seq<real>)
    requires j < |b|
    ensures |r| == |b| - 1
  {
    b[..j] + b[j + 1..]
  }

  lemma WithoutCounts(b: seq<real>, j: nat, v: real)
    requires j < |b|
    ensures multiset(Without(b, j)) == multiset(b) - multiset{b[j]}
    ensures Less(b, v) == Less(Without(b, j), v) + if b[j] < v then 1 else 0
    ensures Equal(b, v) == Equal(Without(b, j), v) + if b[j] == v then 1 else 0
  {
    var c, x, d := b[..j], b[j], b[j + 1..];
    assert b == (c + [x]) + d;
    assert multiset(b) == multiset(c) + multiset{x} + multiset(d);
    CountsConcat(c + [x], d, v);
    CountStep(c, x, v);
    CountsConcat(c, d, v);
  }

  /** Counts do not depend on the order. */
  lemma {:induction false} CountsPermute(a: seq<real>, b: seq<real>, v: real)
    requires multiset(a) == multiset(b)
    ensures Less(a, v) == Less(b, v) && Equal(a, v) == Equal(b, v)
    decreases |a|
  {
    hide Without;
    assert |a| == |multiset(a)| == |multiset(b)| == |b|;
    if a != [] {
      hide Less, Equal;
      var n := |a| - 1;
      assert a[n] in multiset(b);
      var j :| 0 <= j < |b| && b[j] == a[n];
      WithoutCounts(a, n, v);
      WithoutCounts(b, j, v);
      CountsPermute(Without(a, n), Without(b, j), v);
    }
  }

  /** Every position below n once. */
  ghost predicate NamesAll(order: seq<nat>, n: nat) {
    && |order| == n && (forall k :: 0 <= k < n ==> order[k] < n)
    && (forall k, l :: 0 <= k < l < n ==> order[k] != order[l])
    && (forall p :: 0 <= p < n ==> p in order)
  }

  lemma NamesWithout(order: seq<nat>, n: nat, j: nat)
    requires NamesAll(order, n + 1) && j <= n && order[j] == n
    ensures NamesAll(order[..j] + order[j + 1..], n)
  {
    var rest := order[..j] + order[j + 1..];
    forall k | 0 <= k < n ensures rest[k] < n && rest[k] == order[if k < j then k else k + 1] { }
    forall p | 0 <= p < n ensures p in rest {
      assert p in order;
      var k :| 0 <= k < |order| && order[k] == p;
      assert rest[if k < j then k else k - 1] == p;
    }
  }

  lemma SortedWithout(vals: seq<real>, order: seq<nat>, j: nat)
    requires NamesAll(order, |vals|) && j < |vals| && order[j] == |vals| - 1
    ensures SortedBy(vals[..|vals| - 1], order[..j] + order[j + 1..]) == Without(SortedBy(vals, order), j)
    ensures SortedBy(vals, order)[j] == vals[|vals| - 1]
  {
    var n := |vals| - 1;
    NamesWithout(order, n, j);
    var rest := order[..j] + order[j + 1..];
    forall k | 0 <= k < n
      ensures SortedBy(vals[..n], rest)[k] == Without(SortedBy(vals, order), j)[k]
    {
      assert rest[k] == order[if k < j then k else k + 1] < n;
    }
  }

  /** Naming every position once permutes the values. */
  lemma {:induction false} OrderPermutes(vals: seq<real>, order: seq<nat>)
    requires NamesAll(order, |vals|)
    ensures multiset(SortedBy(vals, order)) == multiset(vals)
    decreases |vals|
  {
    if vals != [] {
      hide SortedBy, Without, Less, Equal;
      var n := |vals| - 1;
      assert n in order;
      var j: nat :| j < |order| && order[j] == n;
      NamesWithout(order, n, j);
      hide NamesAll;
      OrderPermutes(vals[..n], order[..j] + order[j + 1..]);
      SortedWithout(vals, order, j);
      SortedLength(vals, order);
      PutBack(SortedBy(vals, order), j, vals);
    }
  }

  lemma PutBack(a: seq<real>, j: nat, b: seq<real>)
    requires j < |a| && b != [] && a[j] == b[|b| - 1] && multiset(Without(a, j)) == multiset(b[..|b| - 1])
    ensures multiset(a) == multiset(b)
  {
    assert a == a[..j] + ([a[j]] + a[j + 1..]);
    assert b == b[..|b| - 1] + [b[|b| - 1]];
  }

  lemma SortedLength(vals: seq<real>, order: seq<nat>)
    ensures |SortedBy(vals, order)| == |order|
  {
  }

  /** The values equal to v sit at i..j of the sorted list. */
  ghost predicate IsTie(sorted: seq<real>, i: int, j: int, v: real) {
    && 0 <= i <= j < |sorted|
    && (forall k :: 0 <= k < i ==> sorted[k] < v) && (forall k :: i <= k <= j ==> sorted[k] == v)
    && (forall k :: j < k < |sorted| ==> sorted[k] > v)
  }

  lemma {:induction false} TieCounts(sorted: seq<real>, i: nat, j: nat, v: real, n: nat)
    requires IsTie(sorted, i, j, v) && n <= |sorted|
    ensures Less(sorted[..n], v) == if n <= i then n else i
    ensures Equal(sorted[..n], v) == if n <= i then 0 else if n <= j then n - i else j - i + 1
  {
    if n > 0 {
      TieCounts(sorted, i, j, v, n - 1);
      assert sorted[..n] == sorted[..n - 1] + [sorted[n - 1]];
      CountStep(sorted[..n - 1], sorted[n - 1], v);
    }
  }

  /** The tied rank is the mean of the positions of the tie. */
  lemma TieMean(vals: seq<real>, order: seq<nat>, i: nat, j: nat, v: real)
    requires IsArgsort(vals, order) && IsTie(SortedBy(vals, order), i, j, v)
    ensures TwiceRank(vals, v) == i + j
  {
    var sorted := SortedBy(vals, order);
    TieCounts(sorted, i, j, v, |sorted|);
    assert sorted[..|sorted|] == sorted;
    OrderPermutes(vals, order);
    CountsPermute(sorted, vals, v);
  }

  /** The ranks of the values, by the loops over the sorted order. */
  method RankValues(vals: seq<real>, order: seq<nat>) returns (ranks: array<real>)
    requires IsArgsort(vals, order)
    ensures fresh(ranks) && ranks.Length == |vals|
    ensures forall p :: 0 <= p < |vals| ==> ranks[p] == TiedRank(vals, vals[p])
  {
    hide TiedRank, TwiceRank, Less, Equal, IsTie;
    var n := |vals|;
    OrderOf(vals, order);
    hide IsArgsort;
    ranks := new real[n];
    for k := 0 to n
      invariant forall l :: 0 <= l < k ==> ranks[order[l]] == l as real
    {
      ranks[order[k]] := k as real;
    }
    ghost var sorted := SortedBy(vals, order);
    var i := 0;
    while i < n
      invariant 0 <= i <= n
      invariant forall l :: 0 <= l < i ==> ranks[order[l]] == TiedRank(vals, vals[order[l]])
      invariant forall l :: i <= l < n ==> ranks[order[l]] == l as real
      invariant 0 < i < n ==> sorted[i - 1] < sorted[i]
    {
      var j := i;
      while j + 1 < n && vals[order[j + 1]] == vals[order[i]]
        invariant i <= j < n && forall l :: i <= l <= j ==> vals[order[l]] == vals[order[i]]
      {
        j := j + 1;
      }
      var v := vals[order[i]];
      TieHere(vals, order, i, j, v);
      TieMean(vals, order, i, j, v);
      var average := MeanOf(ranks, order, i, j);
      RankIs(vals, v, i, j, average);
      SetAll(ranks, order, i, j, average);
      i := j + 1;
    }
    forall p | 0 <= p < |vals| ensures ranks[p] == TiedRank(vals, vals[p]) {
      assert p in order;
    }
  }

  /** ranks[order[i:j+1]] = average. */
  method SetAll(ranks: array<real>, order: seq<nat>, i: nat, j: nat, average: real)
    requires i <= j < |order| == ranks.Length
    requires (forall k :: 0 <= k < |order| ==> order[k] < ranks.Length)
             && forall k, l :: 0 <= k < l < |order| ==> order[k] != order[l]
    modifies ranks
    ensures forall l :: 0 <= l < |order| ==> ranks[order[l]] == if i <= l <= j then average else old(ranks[order[l]])
  {
    for k := i to j + 1
      invariant forall l :: 0 <= l < |order| ==> ranks[order[l]] == if i <= l < k then average else old(ranks[order[l]])
    {
      ranks[order[k]] := average;
    }
  }

  lemma OrderOf(vals: seq<real>, order: seq<nat>)
    requires IsArgsort(vals, order)
    ensures |order| == |vals| && (forall k :: 0 <= k < |order| ==> order[k] < |vals|)
    ensures forall k, l :: 0 <= k < l < |order| ==> order[k] != order[l]
    ensures forall p :: 0 <= p < |vals| ==> p in order
  {
  }

  lemma TieHere(vals: seq<real>, order: seq<nat>, i: nat, j: nat, v: real)
    requires IsArgsort(vals, order) && i <= j < |vals| && v == vals[order[i]]
    requires forall l :: i <= l <= j ==> vals[order[l]] == v
    requires 0 < i ==> SortedBy(vals, order)[i - 1] < v
    requires j + 1 < |vals| ==> vals[order[j + 1]] != v
    ensures IsTie(SortedBy(vals, order), i, j, v)
    ensures j + 1 < |vals| ==> SortedBy(vals, order)[j] < SortedBy(vals, order)[j + 1]
  {
    var sorted := SortedBy(vals, order);
    forall k | 0 <= k < i ensures sorted[k] < v { assert sorted[k] <= sorted[i - 1]; }
    forall k | j < k < |sorted| ensures sorted[k] > v {
      assert vals[order[j]] <= vals[order[j + 1]];
      if k > j + 1 { assert vals[order[j + 1]] <= vals[order[k]]; }
    }
  }

  /** ranks[order[i:j+1]].mean() while each still is its own position. */
  method MeanOf(ranks: array<real>, order: seq<nat>, i: nat, j: nat) returns (mean: real)
    requires i <= j < |order| && forall k :: i <= k <= j ==> order[k] < ranks.Length && ranks[order[k]] == k as real
    ensures mean == (i + j) as real / 2.0
  {
    var total := 0.0;
    for k := i to j + 1
      invariant 2.0 * total == ((k - i) * (k + i - 1)) as real
    {
      assert (k + 1 - i) * (k + i) == (k - i) * (k + i - 1) + 2 * k;
      total := total + ranks[order[k]];
    }
    mean := total / (j - i + 1) as real;
    Halved(total, j - i + 1, i + j);
  }

  lemma Halved(total: real, n: nat, s: nat)
    requires n > 0 && 2.0 * total == (n * s) as real
    ensures total / n as real == s as real / 2.0
  {
    assert (n * s) as real == n as real * s as real;
    assert total == n as real * (s as real / 2.0);
  }

  lemma RankIs(vals: seq<real>, v: real, i: nat, j: nat, average: real)
    requires TwiceRank(vals, v) == i + j && average == (i + j) as real / 2.0
    ensures TiedRank(vals, v) == average
  {
  }

  function IndicesOf(mask: seq<bool>): (r: seq<nat>)
    ensures forall k :: 0 <= k < |r| ==> r[k] < |mask| && mask[r[k]]
    ensures forall k, l :: 0 <= k < l < |r| ==> r[k] < r[l]
    ensures forall i :: 0 <= i < |mask| && mask[i] ==> i in r
  {
    if mask == [] then []
    else
      var before := IndicesOf(mask[..|mask| - 1]);
      if mask[|mask| - 1] then before + [|mask| - 1] else before
  }

  function ValuesAt(x: seq<real>, indices: seq<nat>): (r: seq<real>)
    requires forall k :: 0 <= k < |indices| ==> indices[k] < |x|
    ensures |r| == |indices| && forall k :: 0 <= k < |r| ==> r[k] == x[indices[k]]
  {
    seq(|indices|, k requires 0 <= k < |indices| => x[indices[k]])
  }

  /** The values that are present. */
  function ValidOf(x: seq<real>, mask: seq<bool>): seq<real>
    requires |x| == |mask|
  {
    ValuesAt(x, IndicesOf(mask))
  }

  /** _rank_transform: a missing value gives 0, a present one its mapped rank among
      the present ones, and with fewer than two of them everything is 0. */
  method RankTransform(x: seq<real>, mask: seq<bool>, argsort: seq<real> -> seq<nat>) returns (out: array<real>)
    requires |x| == |mask| && forall vals :: IsArgsort(vals, argsort(vals))
    ensures fresh(out) && out.Length == |x|
    ensures forall i :: 0 <= i < |x| ==>
              out[i] == if mask[i] && |ValidOf(x, mask)| >= 2 then Mapped(ValidOf(x, mask), x[i]) else 0.0
  {
    hide Mapped, IsArgsort, Stretch, TiedRank, TwiceRank;
    out := new real[|x|](i => 0.0);
    var indices := IndicesOf(mask);
    var n := |indices|;
    if n < 2 { return; }
    var vals := ValuesAt(x, indices);
    var ranks := RankValues(vals, argsort(vals));
    for k := 0 to n
      invariant forall l :: 0 <= l < n ==> ranks[l] == TiedRank(vals, vals[l])
      invariant forall l :: 0 <= l < k ==> out[indices[l]] == Mapped(vals, x[indices[l]])
      invariant forall i :: 0 <= i < |x| && (forall l :: 0 <= l < k ==> indices[l] != i) ==> out[i] == 0.0
    {
      MappedIs(vals, vals[k]);
      out[indices[k]] := Stretch(ranks[k], n);
    }
    forall i | 0 <= i < |x| ensures out[i] == if mask[i] then Mapped(vals, x[i]) else 0.0 {
      if mask[i] { assert i in indices; }
    }
  }

  lemma MappedIs(vals: seq<real>, v: real)
    requires |vals| >= 2
    ensures Mapped(vals, v) == Stretch(TiedRank(vals, v), |vals|)
  {
  }
}
