/** The bounded best-hit list and the block scan of search_engine.cpp, and
    rank_hits of score_ranking.py. */
module TopKSearch {
  import opened Common
  import opened Ranking

  datatype Result<T> = Ok(value: T) | Failed

  /** One lane of a block after block_dot4: its chunk id (negative for padding
      and tombstones) and its score. */
  datatype Lane = Lane(id: int, score: Score)
  type Block = seq<Lane>

  // ------------------------------------------------------------ specification

  /** Where std::lower_bound puts c: before the first hit that is not better. */
  ghost function InsertPos(hits: seq<Hit>, c: Hit): (p: nat)
    ensures p <= |hits|
    ensures forall i :: 0 <= i < p ==> Better(hits[i], c)
    ensures p < |hits| ==> !Better(hits[p], c)
  {
    if hits == [] || !Better(hits[0], c) then 0 else 1 + InsertPos(hits[1..], c)
  }

  /** TopK.push on values. */
  ghost function Pushed(hits: seq<Hit>, k: nat, c: Hit): seq<Hit> {
    if k == 0 || (|hits| >= k && !Better(c, hits[|hits| - 1])) then hits
    else
      var p := InsertPos(hits, c);
      var longer := hits[..p] + [c] + hits[p..];
      if |longer| > k then longer[..|longer| - 1] else longer
  }

  /** The pushes of merge, in list order. */
  ghost function PushedAll(hits: seq<Hit>, k: nat, other: seq<Hit>): seq<Hit> {
    if other == [] then hits
    else Pushed(PushedAll(hits, k, other[..|other| - 1]), k, other[|other| - 1])
  }

  lemma InsertPosUnique(hits: seq<Hit>, c: Hit, p: nat)
    requires p <= |hits| && forall i :: 0 <= i < p ==> Better(hits[i], c)
    requires forall i :: p <= i < |hits| ==> !Better(hits[i], c)
    ensures p == InsertPos(hits, c)
  {
    var q := InsertPos(hits, c);
    assert p < |hits| ==> !Better(hits[p], c);
    assert q < |hits| ==> !Better(hits[q], c);
  }

  lemma SortedInsert(hits: seq<Hit>, c: Hit, p: nat)
    requires Sorted(hits) && p <= |hits|
    requires forall i :: 0 <= i < p ==> Better(hits[i], c)
    requires forall i :: p <= i < |hits| ==> !Better(hits[i], c)
    ensures Sorted(hits[..p] + [c] + hits[p..])
  {
  }

  lemma PushedSorted(hits: seq<Hit>, k: nat, c: Hit)
    requires Sorted(hits) && |hits| <= k
    ensures Sorted(Pushed(hits, k, c)) && |Pushed(hits, k, c)| <= k
  {
    var p := InsertPos(hits, c);
    SortedInsert(hits, c, p);
  }

  lemma OrderedInsert(hits: seq<Hit>, c: Hit, p: nat)
    requires Ordered(hits) && p <= |hits|
    requires forall i :: 0 <= i < p ==> Better(hits[i], c)
    requires forall i :: p <= i < |hits| ==> Better(c, hits[i])
    ensures Ordered(hits[..p] + [c] + hits[p..])
  {
  }

  lemma InsertedElements(hits: seq<Hit>, c: Hit, p: nat)
    requires p <= |hits|
    ensures Elements(hits[..p] + [c] + hits[p..]) == Elements(hits) + {c}
  {
    assert hits == hits[..p] + hits[p..];
  }

  /** Inserting a new hit keeps the list ordered and adds just that hit. */
  lemma InsertOrdered(hits: seq<Hit>, c: Hit)
    requires Ordered(hits) && forall i :: 0 <= i < |hits| ==> hits[i].id != c.id
    ensures var p := InsertPos(hits, c);
            var longer := hits[..p] + [c] + hits[p..];
            Ordered(longer) && Elements(longer) == Elements(hits) + {c}
  {
    var p := InsertPos(hits, c);
    forall i | p <= i < |hits| ensures Better(c, hits[i]) {
      assert Better(c, hits[p]);
      assert p < i ==> Better(hits[p], hits[i]);
    }
    OrderedInsert(hits, c, p);
    InsertedElements(hits, c, p);
  }

  /** Dropping the last of k+1 listed hits of all leaves the k best of all. */
  lemma DropLast(longer: seq<Hit>, all: set<Hit>, k: nat)
    requires |longer| == k + 1 && IsTopK(longer, all, k + 1)
    ensures IsTopK(longer[..k], all, k)
  {
    var r, last := longer[..k], longer[k];
    assert longer == r + [last];
    assert forall x :: x in r ==> Better(x, last);
  }

  lemma WorstIsLast(hits: seq<Hit>, c: Hit)
    requires Ordered(hits) && hits != []
    ensures Better(c, hits[|hits| - 1]) || forall x :: x in hits && x.id != c.id ==> Better(x, c)
  {
    forall x | x in hits ensures x == hits[|hits| - 1] || Better(x, hits[|hits| - 1]) {
      var i :| 0 <= i < |hits| && hits[i] == x;
      assert i < |hits| - 1 ==> Better(hits[i], hits[|hits| - 1]);
    }
  }

  lemma PushWhenFull(hits: seq<Hit>, all: set<Hit>, k: nat, c: Hit, longer: seq<Hit>)
    requires IsTopK(hits, all, k) && |hits| == k > 0 && c !in all && DistinctIds(all + {c})
    requires forall h :: h in hits ==> h.id != c.id
    requires Ordered(longer) && Elements(longer) == Elements(hits) + {c} && |longer| == k + 1
    ensures Better(c, hits[k - 1]) ==> IsTopK(longer[..k], all + {c}, k)
    ensures !Better(c, hits[k - 1]) ==> IsTopK(hits, all + {c}, k)
  {
    var worst := hits[k - 1];
    assert worst in hits;
    if Better(c, worst) {
      forall h | h in all && h !in hits ensures Better(c, h) && forall x :: x in hits ==> Better(x, h) {
        assert Better(worst, h);
      }
      KeepLonger(longer, hits, all, k, c);
      DropLast(longer, all + {c}, k);
    } else {
      WorstIsLast(hits, c);
    }
  }

  /** A push keeps the list equal to the k best of everything pushed so far. */
  lemma PushKeepsTopK(hits: seq<Hit>, all: set<Hit>, k: nat, c: Hit)
    requires IsTopK(hits, all, k) && c !in all && DistinctIds(all + {c})
    ensures IsTopK(Pushed(hits, k, c), all + {c}, k)
  {
    forall h | h in hits ensures h.id != c.id {
      assert h in all + {c} && c in all + {c};
    }
    if k > 0 {
      InsertOrdered(hits, c);
      var p := InsertPos(hits, c);
      var longer := hits[..p] + [c] + hits[p..];
      if |hits| < k {
        KeepAll(longer, hits, all, k, c);
      } else {
        PushWhenFull(hits, all, k, c, longer);
      }
    }
  }

  /** The k best of a set; TopKUnique says there is no other such list. */
  ghost function KBest(all: set<Hit>, k: nat): (r: seq<Hit>)
    ensures DistinctIds(all) ==> IsTopK(r, all, k)
  {
    if all == {} || !DistinctIds(all) then []
    else
      var c :| c in all;
      assert all - {c} + {c} == all;
      PushKeepsTopK(KBest(all - {c}, k), all - {c}, k, c);
      Pushed(KBest(all - {c}, k), k, c)
  }

  lemma KeepAll(longer: seq<Hit>, hits: seq<Hit>, all: set<Hit>, k: nat, c: Hit)
    requires |hits| < k && |longer| == |hits| + 1 && Ordered(longer) && IsTopK(hits, all, k)
    requires Elements(longer) == Elements(hits) + {c}
    ensures IsTopK(longer, all + {c}, k)
  {
    assert forall h :: h in longer <==> h in Elements(longer);
  }

  lemma KeepLonger(longer: seq<Hit>, hits: seq<Hit>, all: set<Hit>, k: nat, c: Hit)
    requires |hits| == k && |longer| == k + 1 && Ordered(longer)
    requires Elements(longer) == Elements(hits) + {c} && forall h :: h in hits ==> h in all
    requires forall h :: h in all && h !in hits ==> Better(c, h) && forall x :: x in hits ==> Better(x, h)
    ensures IsTopK(longer, all + {c}, k + 1)
  {
    assert forall h :: h in longer <==> h in Elements(longer);
  }

  // ------------------------------------------------------------ the C++ struct

  /** struct TopK: at most k hits, best first. */
  class TopK {
    var hits: seq<Hit>
    const k: nat

    ghost predicate Valid()
      reads this
    {
      Sorted(hits) && |hits| <= k
    }

    constructor (k: nat)
      ensures Valid() && hits == [] && this.k == k
    {
      this.k := k;
      hits := [];
    }

    /** std::lower_bound by repeated halving of the remaining count. */
    method LowerBound(c: Hit) returns (first: nat)
      requires Sorted(hits)
      ensures first <= |hits|
      ensures forall i :: 0 <= i < first ==> Better(hits[i], c)
      ensures forall i :: first <= i < |hits| ==> !Better(hits[i], c)
    {
      first := 0;
      var count := |hits|;
      while count > 0
        invariant 0 <= count && first + count <= |hits|
        invariant forall i :: 0 <= i < first ==> Better(hits[i], c)
        invariant forall i :: first + count <= i < |hits| ==> !Better(hits[i], c)
      {
        var step := count / 2;
        if Better(hits[first + step], c) {
          first := first + step + 1;
          count := count - step - 1;
        } else {
          count := step;
        }
      }
    }

    method Push(c: Hit)
      requires Valid()
      modifies this
      ensures Valid() && hits == Pushed(old(hits), k, c)
    {
      PushedSorted(hits, k, c);
      if k == 0 { return; }
      if |hits| >= k && !Better(c, hits[|hits| - 1]) { return; }
      var pos := LowerBound(c);
      InsertPosUnique(hits, c, pos);
      hits := hits[..pos] + [c] + hits[pos..];
      if |hits| > k {
        hits := hits[..|hits| - 1];
      }
    }

    /** merge: the other list's hits are pushed one by one. */
    method Merge(other: TopK)
      requires Valid() && other != this
      modifies this
      ensures Valid() && hits == PushedAll(old(hits), k, other.hits)
    {
      var i := 0;
      while i < |other.hits|
        invariant Valid() && 0 <= i <= |other.hits|
        invariant hits == PushedAll(old(hits), k, other.hits[..i])
      {
        assert other.hits[..i + 1][..i] == other.hits[..i];
        Push(other.hits[i]);
        i := i + 1;
      }
      assert other.hits[..i] == other.hits;
    }
  }

  // ------------------------------------------------------------ search

  predicate Live(lane: Lane) { lane.id >= 0 }

  predicate Bad(lane: Lane) { Live(lane) && TryQuantizeScore(lane.score).OutOfRange? }

  predicate Countable(lane: Lane) { Live(lane) && !Bad(lane) }

  function HitOf(lane: Lane): Hit
    requires Countable(lane)
  {
    Hit(lane.score, TryQuantizeScore(lane.score).q, lane.id)
  }

  ghost predicate AnyBad(blocks: seq<Block>) {
    exists b, l :: 0 <= b < |blocks| && 0 <= l < |blocks[b]| && Bad(blocks[b][l])
  }

  /** No chunk id occurs on two live lanes. */
  ghost predicate DistinctLive(blocks: seq<Block>) {
    forall b, l, b', l' | 0 <= b < |blocks| && 0 <= l < |blocks[b]| && 0 <= b' < |blocks| && 0 <= l' < |blocks[b']| ::
      Live(blocks[b][l]) && blocks[b][l].id == blocks[b'][l'].id ==> b == b' && l == l'
  }

  /** The hits of the first n lanes of one block. */
  ghost function LaneHits(block: Block, n: nat): set<Hit>
    requires n <= |block|
  {
    set l | 0 <= l < n && Countable(block[l]) :: HitOf(block[l])
  }

  /** The hits of a set of blocks. */
  ghost function HitsIn(blocks: seq<Block>, of: set<nat>): set<Hit> {
    set b, l | b in of && b < |blocks| && 0 <= l < |blocks[b]| && Countable(blocks[b][l]) :: HitOf(blocks[b][l])
  }

  /** In the lanes' own ids and scores: at most k live lanes, best first, and no live lane
      left out unless k better ones are listed. */
  ghost predicate BestLanes(r: seq<Hit>, blocks: seq<Block>, k: nat) {
    && BestFirst(r) && |r| <= k
    && (forall h :: h in r ==>
          exists b, l :: 0 <= b < |blocks| && 0 <= l < |blocks[b]| && blocks[b][l] == Lane(h.id, h.score) && h.id >= 0)
    && (forall b, l :: 0 <= b < |blocks| && 0 <= l < |blocks[b]| && blocks[b][l].id >= 0 ==>
          ListedOrBeaten(r, k, blocks[b][l].id, blocks[b][l].score))
  }

  lemma AnyBadMeaning(blocks: seq<Block>)
    ensures AnyBad(blocks) <==>
            exists b, l :: 0 <= b < |blocks| && 0 <= l < |blocks[b]| && blocks[b][l].id >= 0
                && !Rankable(blocks[b][l].score)
  {
    hide Rankable, TryQuantizeScore;
    forall b, l | 0 <= b < |blocks| && 0 <= l < |blocks[b]|
      ensures Bad(blocks[b][l]) <==> blocks[b][l].id >= 0 && !Rankable(blocks[b][l].score)
    {
      RankableMeaning(blocks[b][l].score);
    }
  }

  lemma HitsRankValued(blocks: seq<Block>, of: set<nat>)
    ensures RankValued(HitsIn(blocks, of))
  {
    forall h | h in HitsIn(blocks, of)
      ensures Rankable(h.score) && h.scoreQ == (h.score.value * 1000000.0 + 0.5).Floor
    {
      RankableMeaning(h.score);
    }
  }

  lemma LanesInScores(r: seq<Hit>, blocks: seq<Block>, k: nat)
    requires !AnyBad(blocks) && IsTopK(r, HitsIn(blocks, Below(|blocks|)), k)
    ensures BestLanes(r, blocks, k)
  {
    hide BestFirst, ListedOrBeaten, RankValued, TryQuantizeScore;
    var all := HitsIn(blocks, Below(|blocks|));
    HitsRankValued(blocks, Below(|blocks|));
    TopKInScores(r, all, k);
    forall b, l | 0 <= b < |blocks| && 0 <= l < |blocks[b]| && blocks[b][l].id >= 0
      ensures ListedOrBeaten(r, k, blocks[b][l].id, blocks[b][l].score)
    {
      assert !Bad(blocks[b][l]);
      assert HitOf(blocks[b][l]) in all;
    }
    forall h | h in r
      ensures exists b, l :: 0 <= b < |blocks| && 0 <= l < |blocks[b]| && blocks[b][l] == Lane(h.id, h.score)
                  && h.id >= 0
    {
      assert h in all;
      var b, l :| b in Below(|blocks|) && b < |blocks| && 0 <= l < |blocks[b]| && Countable(blocks[b][l])
          && HitOf(blocks[b][l]) == h;
      assert blocks[b][l] == Lane(h.id, h.score);
    }
  }

  /** Which thread scans which block, in some interleaving of all threads. */
  datatype Visit = Visit(block: nat, thread: nat)

  ghost predicate Visited(schedule: seq<Visit>, b: nat) {
    exists i :: 0 <= i < |schedule| && schedule[i].block == b
  }

  /** Every block is scanned exactly once, by an existing thread. */
  ghost predicate Complete(schedule: seq<Visit>, blocks: nat, threads: nat) {
    && (forall i :: 0 <= i < |schedule| ==> schedule[i].block < blocks && schedule[i].thread < threads)
    && (forall i, j :: 0 <= i < j < |schedule| ==> schedule[i].block != schedule[j].block)
    && (forall b: nat :: b < blocks ==> Visited(schedule, b))
  }

  /** Such schedules exist for any number of threads, as of a loop that deals the blocks out. */
  lemma DealtOut(blocks: nat, threads: nat)
    requires threads > 0
    ensures Complete(seq<Visit>(blocks, b requires 0 <= b < blocks => Visit(b, b % threads)), blocks, threads)
  {
    var schedule := seq<Visit>(blocks, b requires 0 <= b < blocks => Visit(b, b % threads));
    forall b: nat | b < blocks ensures Visited(schedule, b) {
      assert schedule[b].block == b;
    }
  }

  ghost function Scanned(hits: seq<Hit>, k: nat, lanes: seq<Lane>): seq<Hit> {
    if lanes == [] then hits
    else
      var before := Scanned(hits, k, lanes[..|lanes| - 1]);
      var lane := lanes[|lanes| - 1];
      if Countable(lane) then Pushed(before, k, HitOf(lane)) else before
  }

  /** A thread's own list after its share of a schedule. */
  ghost function LocalList(blocks: seq<Block>, k: nat, schedule: seq<Visit>, thread: nat): seq<Hit>
    requires forall i :: 0 <= i < |schedule| ==> schedule[i].block < |blocks|
  {
    if schedule == [] then []
    else
      var before := LocalList(blocks, k, schedule[..|schedule| - 1], thread);
      var visit := schedule[|schedule| - 1];
      if visit.thread == thread then Scanned(before, k, blocks[visit.block]) else before
  }

  /** The serial merge of the first n threads' lists. */
  ghost function Merged(blocks: seq<Block>, k: nat, schedule: seq<Visit>, n: nat): seq<Hit>
    requires forall i :: 0 <= i < |schedule| ==> schedule[i].block < |blocks|
  {
    if n == 0 then []
    else PushedAll(Merged(blocks, k, schedule, n - 1), k, LocalList(blocks, k, schedule, n - 1))
  }

  /** search with OpenMP: the blocks are scanned in any interleaving of any
      assignment to threads, then the locals are merged in thread order. */
  method Search(blocks: seq<Block>, k: nat, threads: nat, schedule: seq<Visit>)
    returns (r: Result<seq<Hit>>)
    requires Complete(schedule, |blocks|, threads)
    ensures r.Failed? <==> AnyBad(blocks)
    ensures r.Failed? <==>
            exists b, l :: 0 <= b < |blocks| && 0 <= l < |blocks[b]| && blocks[b][l].id >= 0
                && !Rankable(blocks[b][l].score)
    ensures r.Ok? ==> r.value == Merged(blocks, k, schedule, threads)
    ensures r.Ok? && DistinctLive(blocks) ==> IsTopK(r.value, HitsIn(blocks, Below(|blocks|)), k)
    ensures r.Ok? && DistinctLive(blocks) ==> BestLanes(r.value, blocks, k)
  {
    var global := new TopK(k);
    var locals := NewLocals(k, threads);
    var invalid := ScanAll(locals, blocks, k, schedule);
    MergeAll(global, locals, blocks, k, schedule);
    AnyBadVisited(blocks, schedule, threads);
    AnyBadMeaning(blocks);
    if invalid { return Failed; }
    if DistinctLive(blocks) {
      MergedIsTopK(blocks, k, schedule, threads);
      LanesInScores(global.hits, blocks, k);
    }
    return Ok(global.hits);
  }

  ghost predicate BadSeen(blocks: seq<Block>, schedule: seq<Visit>)
    requires forall i :: 0 <= i < |schedule| ==> schedule[i].block < |blocks|
  {
    exists j, l :: 0 <= j < |schedule| && 0 <= l < |blocks[schedule[j].block]| && Bad(blocks[schedule[j].block][l])
  }

  lemma AnyBadVisited(blocks: seq<Block>, schedule: seq<Visit>, threads: nat)
    requires Complete(schedule, |blocks|, threads)
    ensures AnyBad(blocks) <==> BadSeen(blocks, schedule)
  {
    if AnyBad(blocks) {
      var b, l :| 0 <= b < |blocks| && 0 <= l < |blocks[b]| && Bad(blocks[b][l]);
      assert Visited(schedule, b);
      var i :| 0 <= i < |schedule| && schedule[i].block == b;
      assert Bad(blocks[schedule[i].block][l]);
    }
  }

  /** std::vector<TopK> locals(nthreads, TopK(k)). */
  method NewLocals(k: nat, threads: nat) returns (locals: seq<TopK>)
    ensures |locals| == threads && fresh(locals)
    ensures forall t :: 0 <= t < threads ==> locals[t].Valid() && locals[t].hits == [] && locals[t].k == k
    ensures forall t, u :: 0 <= t < u < threads ==> locals[t] != locals[u]
  {
    locals := [];
    while |locals| < threads
      invariant |locals| <= threads && fresh(locals)
      invariant forall t :: 0 <= t < |locals| ==> locals[t].Valid() && locals[t].hits == [] && locals[t].k == k
      invariant forall t, u :: 0 <= t < u < |locals| ==> locals[t] != locals[u]
      decreases threads - |locals|
    {
      var local := new TopK(k);
      locals := locals + [local];
    }
  }

  /** The parallel region. */
  method ScanAll(locals: seq<TopK>, blocks: seq<Block>, k: nat, schedule: seq<Visit>) returns (invalid: bool)
    requires forall i :: 0 <= i < |schedule| ==> schedule[i].block < |blocks| && schedule[i].thread < |locals|
    requires forall t :: 0 <= t < |locals| ==> locals[t].Valid() && locals[t].hits == [] && locals[t].k == k
    requires forall t, u :: 0 <= t < u < |locals| ==> locals[t] != locals[u]
    modifies locals
    ensures forall t :: 0 <= t < |locals| ==> locals[t].Valid() && locals[t].hits == LocalList(blocks, k, schedule, t)
    ensures invalid <==> BadSeen(blocks, schedule)
  {
    invalid := false;
    var i := 0;
    while i < |schedule|
      invariant 0 <= i <= |schedule|
      invariant forall t :: 0 <= t < |locals| ==>
                locals[t].Valid() && locals[t].hits == LocalList(blocks, k, schedule[..i], t)
      invariant invalid <==> BadSeen(blocks, schedule[..i])
    {
      var visit := schedule[i];
      assert schedule[..i + 1][..i] == schedule[..i];
      var bad := ScanBlock(locals[visit.thread], blocks[visit.block]);
      BadSeenStep(blocks, schedule, i);
      invalid := invalid || bad;
      i := i + 1;
    }
    assert schedule[..i] == schedule;
  }

  lemma BadSeenStep(blocks: seq<Block>, schedule: seq<Visit>, i: nat)
    requires i < |schedule| && forall j :: 0 <= j < |schedule| ==> schedule[j].block < |blocks|
    ensures BadSeen(blocks, schedule[..i + 1]) <==>
            BadSeen(blocks, schedule[..i]) ||
            exists l :: 0 <= l < |blocks[schedule[i].block]| && Bad(blocks[schedule[i].block][l])
  {
    var longer, shorter := schedule[..i + 1], schedule[..i];
    if BadSeen(blocks, shorter) {
      var j, l :| 0 <= j < i && 0 <= l < |blocks[shorter[j].block]| && Bad(blocks[shorter[j].block][l]);
      assert longer[j] == shorter[j];
      assert Bad(blocks[longer[j].block][l]);
    }
    if l :| 0 <= l < |blocks[schedule[i].block]| && Bad(blocks[schedule[i].block][l]) {
      assert longer[i] == schedule[i];
      assert Bad(blocks[longer[i].block][l]);
    }
    if BadSeen(blocks, longer) {
      var j, l :| 0 <= j <= i && 0 <= l < |blocks[longer[j].block]| && Bad(blocks[longer[j].block][l]);
      if j < i {
        assert longer[j] == shorter[j];
        assert Bad(blocks[shorter[j].block][l]);
      }
    }
  }

  /** The serial merge after the region. */
  method MergeAll(global: TopK, locals: seq<TopK>, blocks: seq<Block>, k: nat, schedule: seq<Visit>)
    requires global.Valid() && global.hits == [] && global.k == k && global !in locals
    requires forall i :: 0 <= i < |schedule| ==> schedule[i].block < |blocks|
    requires forall t :: 0 <= t < |locals| ==> locals[t].Valid() && locals[t].hits == LocalList(blocks, k, schedule, t)
    modifies global
    ensures global.hits == Merged(blocks, k, schedule, |locals|)
  {
    var t := 0;
    while t < |locals|
      invariant 0 <= t <= |locals| && global.Valid()
      invariant global.hits == Merged(blocks, k, schedule, t)
    {
      hide PushedAll, LocalList;
      global.Merge(locals[t]);
      t := t + 1;
    }
  }

  /** The lane loop of one block; the result says whether some live lane's
      score cannot be ranked. */
  method ScanBlock(local: TopK, block: Block) returns (bad: bool)
    requires local.Valid()
    modifies local
    ensures local.Valid() && local.hits == Scanned(old(local.hits), local.k, block)
    ensures bad <==> exists l :: 0 <= l < |block| && Bad(block[l])
  {
    bad := false;
    var l := 0;
    while l < |block|
      invariant 0 <= l <= |block| && local.Valid()
      invariant local.hits == Scanned(old(local.hits), local.k, block[..l])
      invariant bad <==> exists m :: 0 <= m < l && Bad(block[m])
    {
      var lane := block[l];
      assert block[..l + 1][..l] == block[..l];
      if Live(lane) {
        var q := TryQuantizeScore(lane.score);
        if q.OutOfRange? {
          bad := true;
        } else {
          local.Push(Hit(lane.score, q.q, lane.id));
        }
      }
      l := l + 1;
    }
    assert block[..l] == block;
  }

  lemma {:induction false} ScannedIsTopK(hits: seq<Hit>, all: set<Hit>, k: nat, block: Block, n: nat)
    requires n <= |block| && IsTopK(hits, all, k)
    requires all !! LaneHits(block, |block|) && DistinctIds(all + LaneHits(block, |block|))
    requires forall l, m :: 0 <= l < m < |block| && Live(block[l]) ==> block[l].id != block[m].id
    ensures IsTopK(Scanned(hits, k, block[..n]), all + LaneHits(block, n), k)
  {
    if n == 0 {
      assert all + LaneHits(block, 0) == all;
    } else {
      ScannedIsTopK(hits, all, k, block, n - 1);
      assert block[..n][..n - 1] == block[..n - 1];
      var lane := block[n - 1];
      var seen := all + LaneHits(block, n - 1);
      if Countable(lane) {
        var c := HitOf(lane);
        assert LaneHits(block, n) == LaneHits(block, n - 1) + {c};
        assert seen + {c} == all + LaneHits(block, n) <= all + LaneHits(block, |block|);
        assert c in LaneHits(block, |block|);
        PushKeepsTopK(Scanned(hits, k, block[..n - 1]), seen, k, c);
      } else {
        assert LaneHits(block, n) == LaneHits(block, n - 1);
      }
    }
  }

  /** The blocks a thread has scanned. */
  ghost function Share(schedule: seq<Visit>, thread: nat): set<nat> {
    set i | 0 <= i < |schedule| && schedule[i].thread == thread :: schedule[i].block
  }

  lemma DistinctHits(blocks: seq<Block>, of: set<nat>)
    requires DistinctLive(blocks)
    ensures DistinctIds(HitsIn(blocks, of))
  {
    forall x, y | x in HitsIn(blocks, of) && y in HitsIn(blocks, of) && x.id == y.id ensures x == y {
      var b, l :| b in of && b < |blocks| && 0 <= l < |blocks[b]| && Countable(blocks[b][l])
          && HitOf(blocks[b][l]) == x;
      var b', l' :| b' in of && b' < |blocks| && 0 <= l' < |blocks[b']| && Countable(blocks[b'][l'])
          && HitOf(blocks[b'][l']) == y;
      assert Live(blocks[b][l]) && blocks[b][l].id == blocks[b'][l'].id;
    }
  }

  lemma DisjointHits(blocks: seq<Block>, s: set<nat>, t: set<nat>)
    requires DistinctLive(blocks) && s !! t
    ensures HitsIn(blocks, s) !! HitsIn(blocks, t)
    ensures HitsIn(blocks, s + t) == HitsIn(blocks, s) + HitsIn(blocks, t)
  {
    forall x | x in HitsIn(blocks, s) ensures x !in HitsIn(blocks, t) {
      var b, l :| b in s && b < |blocks| && 0 <= l < |blocks[b]| && Countable(blocks[b][l]) && HitOf(blocks[b][l]) == x;
      forall b', l' | b' in t && b' < |blocks| && 0 <= l' < |blocks[b']| && Countable(blocks[b'][l'])
        ensures HitOf(blocks[b'][l']) != x
      {
        assert Live(blocks[b][l]);
        assert b != b';
      }
    }
  }

  lemma {:induction false} LocalListIsTopK(blocks: seq<Block>, k: nat, schedule: seq<Visit>, threads: nat, t: nat)
    requires DistinctLive(blocks)
    requires forall i :: 0 <= i < |schedule| ==> schedule[i].block < |blocks|
    requires forall i, j :: 0 <= i < j < |schedule| ==> schedule[i].block != schedule[j].block
    ensures IsTopK(LocalList(blocks, k, schedule, t), HitsIn(blocks, Share(schedule, t)), k)
  {
    if schedule == [] {
      assert HitsIn(blocks, Share(schedule, t)) == {};
    } else {
      var n := |schedule| - 1;
      var init, visit := schedule[..n], schedule[n];
      LocalListIsTopK(blocks, k, init, threads, t);
      if visit.thread == t {
        var b := visit.block;
        assert Share(schedule, t) == Share(init, t) + {b};
        assert b !in Share(init, t);
        DisjointHits(blocks, Share(init, t), {b});
        DistinctHits(blocks, Share(schedule, t));
        assert HitsIn(blocks, {b}) == LaneHits(blocks[b], |blocks[b]|);
        ScannedIsTopK(LocalList(blocks, k, init, t), HitsIn(blocks, Share(init, t)), k, blocks[b], |blocks[b]|);
        assert blocks[b][..|blocks[b]|] == blocks[b];
      } else {
        assert Share(schedule, t) == Share(init, t);
      }
    }
  }

  /** The blocks scanned by the first n threads. */
  ghost function ShareBelow(schedule: seq<Visit>, n: nat): set<nat> {
    set i | 0 <= i < |schedule| && schedule[i].thread < n :: schedule[i].block
  }

  lemma OrderedInit(o: seq<Hit>)
    requires Ordered(o) && o != []
    ensures var n := |o| - 1;
            Ordered(o[..n]) && o[n] !in o[..n] && Elements(o) == Elements(o[..n]) + {o[n]}
  {
    var n := |o| - 1;
    forall i | 0 <= i < n ensures o[i] != o[n] {
      assert Better(o[i], o[n]);
    }
    assert o == o[..n] + [o[n]];
  }

  lemma {:induction false} PushedAllIsTopK(hits: seq<Hit>, s: set<Hit>, k: nat, o: seq<Hit>, t: set<Hit>)
    requires IsTopK(hits, s, k) && s !! t && DistinctIds(s + t)
    requires Ordered(o) && Elements(o) <= t
    ensures IsTopK(PushedAll(hits, k, o), s + Elements(o), k)
  {
    if o == [] {
      assert s + Elements(o) == s;
    } else {
      hide IsTopK, Pushed, Better, Ordered;
      var n := |o| - 1;
      OrderedInit(o);
      PushedAllIsTopK(hits, s, k, o[..n], t);
      var seen := s + Elements(o[..n]);
      assert o[n] in Elements(o);
      assert seen + {o[n]} == s + Elements(o) <= s + t;
      PushKeepsTopK(PushedAll(hits, k, o[..n]), seen, k, o[n]);
    }
  }

  /** One local list merged into the global one. */
  lemma MergeOne(hits: seq<Hit>, s: set<Hit>, k: nat, o: seq<Hit>, t: set<Hit>)
    requires IsTopK(hits, s, k) && IsTopK(o, t, k) && s !! t && DistinctIds(s + t)
    ensures IsTopK(PushedAll(hits, k, o), s + t, k)
  {
    PushedAllIsTopK(hits, s, k, o, t);
    TopKOfParts(PushedAll(hits, k, o), s, o, t, k);
  }

  lemma SharesSplit(blocks: seq<Block>, schedule: seq<Visit>, threads: nat, n: nat)
    requires Complete(schedule, |blocks|, threads)
    ensures ShareBelow(schedule, n + 1) == ShareBelow(schedule, n) + Share(schedule, n)
    ensures ShareBelow(schedule, n) !! Share(schedule, n)
  {
  }

  /** One more thread's list merged. */
  lemma MergedStep(blocks: seq<Block>, k: nat, schedule: seq<Visit>, threads: nat, n: nat)
    requires DistinctLive(blocks) && Complete(schedule, |blocks|, threads)
    requires IsTopK(Merged(blocks, k, schedule, n), HitsIn(blocks, ShareBelow(schedule, n)), k)
    ensures IsTopK(PushedAll(Merged(blocks, k, schedule, n), k, LocalList(blocks, k, schedule, n)),
                   HitsIn(blocks, ShareBelow(schedule, n + 1)), k)
  {
    hide IsTopK, HitsIn, DistinctIds, LocalList, PushedAll, Merged, DistinctLive, ShareBelow, Share;
    LocalListIsTopK(blocks, k, schedule, threads, n);
    var below, own := ShareBelow(schedule, n), Share(schedule, n);
    SharesSplit(blocks, schedule, threads, n);
    DisjointHits(blocks, below, own);
    DistinctHits(blocks, below + own);
    MergeOne(Merged(blocks, k, schedule, n), HitsIn(blocks, below), k, LocalList(blocks, k, schedule, n),
             HitsIn(blocks, own));
  }

  lemma {:induction false} MergedBelow(blocks: seq<Block>, k: nat, schedule: seq<Visit>, threads: nat, n: nat)
    requires DistinctLive(blocks) && Complete(schedule, |blocks|, threads)
    ensures IsTopK(Merged(blocks, k, schedule, n), HitsIn(blocks, ShareBelow(schedule, n)), k)
  {
    if n == 0 {
      assert ShareBelow(schedule, 0) == {};
      assert HitsIn(blocks, {}) == {};
    } else {
      hide IsTopK, HitsIn, LocalList, PushedAll, DistinctLive, ShareBelow;
      MergedBelow(blocks, k, schedule, threads, n - 1);
      MergedStep(blocks, k, schedule, threads, n - 1);
    }
  }

  /** Whatever the assignment of blocks to threads and their interleaving, the
      merged list is the k best hits of all live lanes. */
  lemma MergedIsTopK(blocks: seq<Block>, k: nat, schedule: seq<Visit>, threads: nat)
    requires DistinctLive(blocks) && Complete(schedule, |blocks|, threads)
    ensures IsTopK(Merged(blocks, k, schedule, threads), HitsIn(blocks, Below(|blocks|)), k)
  {
    MergedBelow(blocks, k, schedule, threads, threads);
    forall b | b in Below(|blocks|) ensures b in ShareBelow(schedule, threads) {
      assert Visited(schedule, b);
      var i :| 0 <= i < |schedule| && schedule[i].block == b;
    }
    assert ShareBelow(schedule, threads) == Below(|blocks|);
  }

  /** Two runs with different threads and schedules return the same list. */
  lemma ScheduleIrrelevant(blocks: seq<Block>, k: nat, n1: nat, s1: seq<Visit>, n2: nat, s2: seq<Visit>)
    requires DistinctLive(blocks) && Complete(s1, |blocks|, n1) && Complete(s2, |blocks|, n2)
    ensures Merged(blocks, k, s1, n1) == Merged(blocks, k, s2, n2)
  {
    MergedIsTopK(blocks, k, s1, n1);
    MergedIsTopK(blocks, k, s2, n2);
    DistinctHits(blocks, Below(|blocks|));
    TopKUnique(Merged(blocks, k, s1, n1), Merged(blocks, k, s2, n2), HitsIn(blocks, Below(|blocks|)), k);
  }

  /** search without OpenMP: one list, one pass over the blocks in order. */
  method SearchSequential(blocks: seq<Block>, k: nat) returns (r: Result<seq<Hit>>)
    ensures r.Failed? <==> AnyBad(blocks)
    ensures r.Ok? && DistinctLive(blocks) ==> IsTopK(r.value, HitsIn(blocks, Below(|blocks|)), k)
    ensures r.Ok? && DistinctLive(blocks) ==> BestLanes(r.value, blocks, k)
  {
    var global := new TopK(k);
    var invalid := false;
    ghost var inOrder := seq(|blocks|, (b: nat) => Visit(b, 0));
    var b := 0;
    while b < |blocks|
      invariant 0 <= b <= |blocks| && global.Valid()
      invariant global.hits == LocalList(blocks, k, inOrder[..b], 0)
      invariant invalid <==> exists c, l :: 0 <= c < b && 0 <= l < |blocks[c]| && Bad(blocks[c][l])
    {
      assert inOrder[..b + 1][..b] == inOrder[..b];
      var bad := ScanBlock(global, blocks[b]);
      invalid := invalid || bad;
      b := b + 1;
    }
    assert inOrder[..b] == inOrder;
    if invalid { return Failed; }
    if DistinctLive(blocks) {
      LocalListIsTopK(blocks, k, inOrder, 1, 0);
      forall c | c in Below(|blocks|) ensures c in Share(inOrder, 0) {
        assert inOrder[c].thread == 0 && inOrder[c].block == c;
      }
      assert Share(inOrder, 0) == Below(|blocks|);
      LanesInScores(global.hits, blocks, k);
    }
    return Ok(global.hits);
  }

  // ------------------------------------------------------------ rank_hits

  ghost predicate DistinctInputs(hits: seq<(int, Score)>) {
    forall i, j :: 0 <= i < j < |hits| ==> hits[i].0 != hits[j].0
  }

  ghost function InputHits(hits: seq<(int, Score)>): set<Hit> {
    set i | 0 <= i < |hits| && QuantizeScore(hits[i].1).Quantized? ::
      Hit(hits[i].1, QuantizeScore(hits[i].1).q, hits[i].0)
  }

  lemma InputsRankable(hits: seq<(int, Score)>)
    ensures forall i :: 0 <= i < |hits| ==> (QuantizeScore(hits[i].1).OutOfRange? <==> !Rankable(hits[i].1))
  {
    hide Rankable, QuantizeScore, TryQuantizeScore;
    forall i | 0 <= i < |hits| ensures QuantizeScore(hits[i].1).OutOfRange? <==> !Rankable(hits[i].1) {
      QuantizersAgree(hits[i].1);
      RankableMeaning(hits[i].1);
    }
  }

  lemma InputsInScores(r: seq<Hit>, hits: seq<(int, Score)>, k: nat)
    requires forall i :: 0 <= i < |hits| ==> QuantizeScore(hits[i].1).Quantized?
    requires IsTopK(r, InputHits(hits), k)
    ensures BestFirst(r) && |r| <= k && forall h :: h in r ==> (h.id, h.score) in hits
    ensures forall p :: p in hits ==> ListedOrBeaten(r, k, p.0, p.1)
  {
    hide ListedOrBeaten, BestFirst, TryQuantizeScore;
    var all := InputHits(hits);
    forall h | h in all
      ensures Rankable(h.score) && h.scoreQ == (h.score.value * 1000000.0 + 0.5).Floor && (h.id, h.score) in hits
    {
      QuantizersAgree(h.score);
      RankableMeaning(h.score);
    }
    TopKInScores(r, all, k);
    forall p | p in hits ensures ListedOrBeaten(r, k, p.0, p.1) {
      var i :| 0 <= i < |hits| && hits[i] == p;
      assert Hit(p.1, QuantizeScore(p.1).q, p.0) in all;
    }
  }

  /** rank_hits: every score is validated, the list is sorted stably by
      (-quantised score, id) and cut; Failed stands for both of its exceptions. */
  method RankHits(hits: seq<(int, Score)>, topK: int) returns (r: Result<seq<Hit>>)
    ensures r.Failed? <==> topK < 0 || exists i :: 0 <= i < |hits| && QuantizeScore(hits[i].1).OutOfRange?
    ensures r.Failed? <==> topK < 0 || exists i :: 0 <= i < |hits| && !Rankable(hits[i].1)
    ensures r.Ok? && DistinctInputs(hits) ==> IsTopK(r.value, InputHits(hits), topK)
    ensures r.Ok? && DistinctInputs(hits) ==> |r.value| <= topK && forall h :: h in r.value ==> (h.id, h.score) in hits
    ensures r.Ok? && DistinctInputs(hits) ==> BestFirst(r.value)
    ensures r.Ok? && DistinctInputs(hits) ==> forall p :: p in hits ==> ListedOrBeaten(r.value, topK, p.0, p.1)
  {
    hide BestFirst, ListedOrBeaten, Rankable, Sorted, KeepsKeys, IsTopK;
    InputsRankable(hits);
    if topK < 0 { return Failed; }
    var ranked: seq<Hit> := [];
    var i := 0;
    while i < |hits|
      invariant 0 <= i <= |hits| && |ranked| == i
      invariant forall j :: 0 <= j < i ==> QuantizeScore(hits[j].1).Quantized?
      invariant forall j :: 0 <= j < i ==> ranked[j] == Hit(hits[j].1, QuantizeScore(hits[j].1).q, hits[j].0)
    {
      var q := QuantizeScore(hits[i].1);
      if q.OutOfRange? { return Failed; }
      ranked := ranked + [Hit(hits[i].1, q.q, hits[i].0)];
      i := i + 1;
    }
    var sorted := StableSort(ranked);
    var cut := if topK < |sorted| then sorted[..topK] else sorted;
    assert Elements(ranked) == InputHits(hits) by {
      assert forall h :: h in ranked ==> exists j :: 0 <= j < |ranked| && ranked[j] == h;
    }
    if DistinctInputs(hits) {
      assert DistinctIds(Elements(ranked));
      CutOfSorted(sorted, ranked, topK);
      InputsInScores(cut, hits, topK);
    }
    return Ok(cut);
  }

  /** The hits with one sort key, in the order of the list. */
  function WithKey(hits: seq<Hit>, q: int, id: int): seq<Hit> {
    if hits == [] then []
    else
      var last := hits[|hits| - 1];
      WithKey(hits[..|hits| - 1], q, id) + if last.scoreQ == q && last.id == id then [last] else []
  }

  lemma {:induction false} WithKeyConcat(a: seq<Hit>, b: seq<Hit>, q: int, id: int)
    ensures WithKey(a + b, q, id) == WithKey(a, q, id) + WithKey(b, q, id)
  {
    if b == [] {
      assert a + b == a;
    } else {
      var n := |b| - 1;
      assert (a + b)[..|a| + n] == a + b[..n] && (a + b)[|a| + n] == b[n];
      WithKeyConcat(a, b[..n], q, id);
    }
  }

  lemma {:induction false} NoneWithKey(hits: seq<Hit>, q: int, id: int)
    requires forall h :: h in hits ==> h.scoreQ != q || h.id != id
    ensures WithKey(hits, q, id) == []
  {
    if hits != [] {
      var n := |hits| - 1;
      assert hits[n] in hits;
      NoneWithKey(hits[..n], q, id);
    }
  }

  /** Every key keeps its hits in their order. */
  ghost predicate KeepsKeys(after: seq<Hit>, before: seq<Hit>) {
    forall q, id :: WithKey(after, q, id) == WithKey(before, q, id)
  }

  lemma InsertedBehind(sorted: seq<Hit>, c: Hit, p: nat)
    requires p <= |sorted| && forall j :: p <= j < |sorted| ==> Better(c, sorted[j])
    ensures KeepsKeys(sorted[..p] + [c] + sorted[p..], sorted + [c])
  {
    hide WithKey;
    forall q, id ensures WithKey(sorted[..p] + [c] + sorted[p..], q, id) == WithKey(sorted + [c], q, id) {
      WithKeyConcat(sorted[..p] + [c], sorted[p..], q, id);
      WithKeyConcat(sorted[..p], [c], q, id);
      WithKeyConcat(sorted, [c], q, id);
      WithKeyConcat(sorted[..p], sorted[p..], q, id);
      assert sorted == sorted[..p] + sorted[p..];
      if q == c.scoreQ && id == c.id {
        NoneWithKey(sorted[p..], q, id);
      } else {
        NoneWithKey([c], q, id);
      }
    }
  }

  lemma KeepsAppended(after: seq<Hit>, before: seq<Hit>, c: Hit)
    requires KeepsKeys(after, before)
    ensures KeepsKeys(after + [c], before + [c])
  {
    hide WithKey;
    forall q, id ensures WithKey(after + [c], q, id) == WithKey(before + [c], q, id) {
      WithKeyConcat(after, [c], q, id);
      WithKeyConcat(before, [c], q, id);
    }
  }

  /** list.sort with that key, by stable insertion: hits with the same key stay in
      the order of the list. */
  method StableSort(list: seq<Hit>) returns (sorted: seq<Hit>)
    ensures Sorted(sorted) && multiset(sorted) == multiset(list) && KeepsKeys(sorted, list)
  {
    hide Sorted, KeepsKeys;
    sorted := [];
    assert Sorted(sorted) by { NothingSorted(); }
    assert list[..0] == [];
    assert KeepsKeys(sorted, list[..0]) by { SameKeys(sorted); }
    var i := 0;
    while i < |list|
      invariant 0 <= i <= |list| && Sorted(sorted)
      invariant multiset(sorted) == multiset(list[..i]) && KeepsKeys(sorted, list[..i])
    {
      assert list[..i + 1] == list[..i] + [list[i]];
      var longer := StableInsert(sorted, list[i]);
      KeepsAppended(sorted, list[..i], list[i]);
      KeepsTwice(longer, sorted + [list[i]], list[..i + 1]);
      sorted := longer;
      i := i + 1;
    }
    assert list[..i] == list;
  }

  lemma NothingSorted()
    ensures Sorted([])
  {
  }

  lemma SameKeys(hits: seq<Hit>)
    ensures KeepsKeys(hits, hits)
  {
  }

  lemma KeepsTwice(a: seq<Hit>, b: seq<Hit>, c: seq<Hit>)
    requires KeepsKeys(a, b) && KeepsKeys(b, c)
    ensures KeepsKeys(a, c)
  {
  }

  method StableInsert(sorted: seq<Hit>, c: Hit) returns (longer: seq<Hit>)
    requires Sorted(sorted)
    ensures Sorted(longer) && multiset(longer) == multiset(sorted) + multiset{c} && KeepsKeys(longer, sorted + [c])
  {
    hide KeepsKeys;
    var p := |sorted|;
    while p > 0 && Better(c, sorted[p - 1])
      invariant 0 <= p <= |sorted|
      invariant forall j :: p <= j < |sorted| ==> Better(c, sorted[j])
    {
      p := p - 1;
    }
    StablePlace(sorted, c, p);
    InsertedMultiset(sorted, c, p);
    InsertedBehind(sorted, c, p);
    longer := sorted[..p] + [c] + sorted[p..];
  }

  lemma InsertedMultiset(s: seq<Hit>, c: Hit, p: nat)
    requires p <= |s|
    ensures multiset(s[..p] + [c] + s[p..]) == multiset(s) + multiset{c}
  {
    assert s == s[..p] + s[p..];
  }

  lemma StablePlace(sorted: seq<Hit>, c: Hit, p: nat)
    requires Sorted(sorted) && p <= |sorted|
    requires p > 0 ==> !Better(c, sorted[p - 1])
    requires forall j :: p <= j < |sorted| ==> Better(c, sorted[j])
    ensures Sorted(sorted[..p] + [c] + sorted[p..])
  {
    forall j | 0 <= j < p ensures !Better(c, sorted[j]) {
      assert j < p - 1 ==> !Better(sorted[p - 1], sorted[j]);
    }
    var longer := sorted[..p] + [c] + sorted[p..];
    forall i, j | 0 <= i < j < |longer| ensures !Better(longer[j], longer[i]) {
      assert longer[i] == if i < p then sorted[i] else if i == p then c else sorted[i - 1];
      assert longer[j] == if j < p then sorted[j] else if j == p then c else sorted[j - 1];
    }
  }

  lemma CutOfSorted(sorted: seq<Hit>, list: seq<Hit>, k: nat)
    requires Sorted(sorted) && multiset(sorted) == multiset(list) && DistinctIds(Elements(list))
    requires forall i, j :: 0 <= i < j < |list| ==> list[i].id != list[j].id
    ensures IsTopK(if k < |sorted| then sorted[..k] else sorted, Elements(list), k)
  {
    SameMembers(sorted, list);
    SortedDistinct(sorted, list);
    var cut := if k < |sorted| then sorted[..k] else sorted;
    forall h | h in Elements(list) && h !in cut ensures |cut| == k && forall x :: x in cut ==> Better(x, h) {
      assert h in sorted;
      var j :| 0 <= j < |sorted| && sorted[j] == h;
      assert j >= |cut|;
    }
  }

  lemma SameMembers(a: seq<Hit>, b: seq<Hit>)
    requires multiset(a) == multiset(b)
    ensures forall h :: h in a <==> h in b
  {
    forall h ensures h in a <==> h in b {
      assert h in multiset(a) <==> h in multiset(b);
    }
  }

  lemma {:induction false} OnceEach(a: seq<Hit>)
    requires forall i, j :: 0 <= i < j < |a| ==> a[i].id != a[j].id
    ensures forall h :: multiset(a)[h] <= 1
  {
    if a != [] {
      var n := |a| - 1;
      OnceEach(a[..n]);
      assert a == a[..n] + [a[n]];
      assert a[n] !in multiset(a[..n]);
    }
  }

  lemma SortedDistinct(sorted: seq<Hit>, list: seq<Hit>)
    requires Sorted(sorted) && multiset(sorted) == multiset(list) && DistinctIds(Elements(list))
    requires forall i, j :: 0 <= i < j < |list| ==> list[i].id != list[j].id
    ensures Ordered(sorted)
  {
    OnceEach(list);
    SameMembers(sorted, list);
    forall i, j | 0 <= i < j < |sorted| ensures Better(sorted[i], sorted[j]) {
      assert sorted[i] in Elements(list) && sorted[j] in Elements(list);
      assert sorted[i] != sorted[j] by {
        var m := multiset(sorted[..i]) + multiset{sorted[i]} + multiset(sorted[i + 1..j]) + multiset{sorted[j]}
            + multiset(sorted[j + 1..]);
        assert sorted == sorted[..i] + [sorted[i]] + sorted[i + 1..j] + [sorted[j]] + sorted[j + 1..];
        assert multiset(sorted) == m;
        assert multiset(sorted)[sorted[i]] <= 1;
      }
    }
  }
}
