/** search_index of consultation_engine.py and search_lsm of lsm_index.py: the
    per-segment answers, deduplicated by date and merged. */
module LsmSearch {
  import opened Common
  import opened Ranking
  import opened TopKSearch
  import opened AosoaFile
  import opened CanonicalText
  import opened LsmIndex

  const SCRATCH_MAX_K := 64

  /** Which backends answer, and how the native scan runs. */
  datatype Plan = Plan(daemonUp: bool, exePresent: bool, threads: nat, schedules: File -> seq<Visit>)

  /** The plan of each segment, by its position: the daemon may drop out between two. */
  type Plans = nat -> Plan

  ghost predicate PlansOk(plans: Plans) {
    forall i: nat :: PlanOk(plans(i))
  }

  ghost predicate PlanOk(plan: Plan) {
    forall f: File :: WellFormed(f) ==> Complete(plan.schedules(f), f[5], plan.threads)
  }

  function LaneOf(f: File, score: Vec -> Score, i: nat): Lane
    requires WellFormed(f) && i < NumLanes(f)
  {
    Lane(LaneId(f, i), score(LaneVec(f, i)))
  }

  function BlockOf(f: File, score: Vec -> Score, b: nat): Block
    requires WellFormed(f) && b < f[5]
  {
    seq(LANES, l requires 0 <= l < LANES => LaneOf(f, score, b * LANES + l))
  }

  /** The file as block_dot4 sees it under one query. */
  function BlocksOf(f: File, score: Vec -> Score): seq<Block>
    requires WellFormed(f)
  {
    seq(f[5], b requires 0 <= b < f[5] => BlockOf(f, score, b))
  }

  lemma LaneInBlocks(f: File, score: Vec -> Score, i: nat)
    requires WellFormed(f) && i < NumLanes(f)
    ensures var blocks := BlocksOf(f, score);
            && i / LANES < |blocks| && |blocks[i / LANES]| == LANES
            && blocks[i / LANES][i % LANES] == LaneOf(f, score, i)
  {
    assert (i / LANES) * LANES + i % LANES == i;
  }

  /** The rankable hits of a file. */
  ghost function FileHits(f: File, score: Vec -> Score): set<Hit>
    requires WellFormed(f)
  {
    HitsIn(BlocksOf(f, score), Below(|BlocksOf(f, score)|))
  }

  lemma FileHitsByLane(f: File, score: Vec -> Score, h: Hit)
    requires WellFormed(f)
    ensures h in FileHits(f, score) <==>
            exists i: nat :: i < NumLanes(f) && Countable(LaneOf(f, score, i)) && HitOf(LaneOf(f, score, i)) == h
  {
    var blocks := BlocksOf(f, score);
    if h in FileHits(f, score) {
      var b, l :| b in Below(|blocks|) && b < |blocks| && 0 <= l < |blocks[b]| && Countable(blocks[b][l])
          && HitOf(blocks[b][l]) == h;
      assert blocks[b][l] == LaneOf(f, score, b * LANES + l);
    }
    if i: nat :| i < NumLanes(f) && Countable(LaneOf(f, score, i)) && HitOf(LaneOf(f, score, i)) == h {
      LaneInBlocks(f, score, i);
      assert Countable(blocks[i / LANES][i % LANES]);
    }
  }

  lemma FileBadByLane(f: File, score: Vec -> Score)
    requires WellFormed(f)
    ensures AnyBad(BlocksOf(f, score)) <==> exists i: nat :: i < NumLanes(f) && Bad(LaneOf(f, score, i))
  {
    var blocks := BlocksOf(f, score);
    if AnyBad(blocks) {
      var b, l :| 0 <= b < |blocks| && 0 <= l < |blocks[b]| && Bad(blocks[b][l]);
      assert blocks[b][l] == LaneOf(f, score, b * LANES + l);
    }
    if i: nat :| i < NumLanes(f) && Bad(LaneOf(f, score, i)) {
      LaneInBlocks(f, score, i);
      assert Bad(blocks[i / LANES][i % LANES]);
    }
  }

  /** No id occurs on two live lanes of the file. */
  ghost predicate DistinctLanes(f: File)
    requires WellFormed(f)
  {
    forall i: nat, j: nat | i < NumLanes(f) && j < NumLanes(f) ::
      LaneId(f, i) >= 0 && LaneId(f, i) == LaneId(f, j) ==> i == j
  }

  lemma DistinctLanesLive(f: File, score: Vec -> Score)
    requires WellFormed(f) && DistinctLanes(f)
    ensures DistinctLive(BlocksOf(f, score))
  {
    var blocks := BlocksOf(f, score);
    forall b, l, b', l' | 0 <= b < |blocks| && 0 <= l < |blocks[b]| && 0 <= b' < |blocks| && 0 <= l' < |blocks[b']| &&
        Live(blocks[b][l]) && blocks[b][l].id == blocks[b'][l'].id
      ensures b == b' && l == l'
    {
      var i, j := b * LANES + l, b' * LANES + l';
      assert blocks[b][l] == LaneOf(f, score, i) && blocks[b'][l'] == LaneOf(f, score, j);
      assert LaneId(f, i) == LaneId(f, j);
      assert i / LANES == b && j / LANES == b' && i % LANES == l && j % LANES == l';
    }
  }

  // ------------------------------------------------------------ one segment

  /** The daemon's clamp of top_k. */
  function DaemonK(topK: int): nat {
    if topK < 1 then 1 else if topK > SCRATCH_MAX_K then SCRATCH_MAX_K else topK
  }

  /** How many hits a segment can contribute. */
  function Cap(plan: Plan, topK: nat): nat {
    if plan.daemonUp && topK > SCRATCH_MAX_K then SCRATCH_MAX_K else topK
  }

  function Pairs(hits: seq<Hit>): seq<(int, Score)> {
    seq(|hits|, i requires 0 <= i < |hits| => (hits[i].id, hits[i].score))
  }

  /** The live (id, score) pairs, in lane order: the NumPy fallback's input. */
  method LivePairs(f: File, score: Vec -> Score) returns (pairs: seq<(int, Score)>)
    requires WellFormed(f)
    ensures forall p :: p in pairs <==>
            exists i: nat :: i < NumLanes(f) && Live(LaneOf(f, score, i))
                && p == (LaneOf(f, score, i).id, LaneOf(f, score, i).score)
    ensures DistinctLanes(f) ==> DistinctInputs(pairs)
  {
    pairs := [];
    var n := 0;
    while n < NumLanes(f)
      invariant 0 <= n <= NumLanes(f)
      invariant forall p :: p in pairs <==>
                exists i: nat :: i < n && Live(LaneOf(f, score, i))
                    && p == (LaneOf(f, score, i).id, LaneOf(f, score, i).score)
      invariant DistinctLanes(f) ==> DistinctInputs(pairs)
    {
      var lane := LaneOf(f, score, n);
      if Live(lane) {
        if DistinctLanes(f) {
          forall j | 0 <= j < |pairs| ensures pairs[j].0 != lane.id {
            assert pairs[j] in pairs;
          }
        }
        pairs := pairs + [(lane.id, lane.score)];
      }
      n := n + 1;
    }
  }

  lemma PairsInputs(r: seq<Hit>, f: File, score: Vec -> Score)
    requires WellFormed(f) && Ordered(r) && DistinctIds(FileHits(f, score))
    requires forall h :: h in r ==> h in FileHits(f, score)
    ensures InputHits(Pairs(r)) == Elements(r) && DistinctInputs(Pairs(r))
    ensures forall i :: 0 <= i < |r| ==> QuantizeScore(Pairs(r)[i].1).Quantized?
  {
    forall i | 0 <= i < |r| ensures QuantizeScore(r[i].score) == Quantized(r[i].scoreQ) {
      assert r[i] in r;
      QuantizersAgree(r[i].score);
    }
    forall i, j | 0 <= i < j < |r| ensures r[i].id != r[j].id {
      assert Better(r[i], r[j]) && r[i] in r && r[j] in r;
    }
    forall h ensures h in InputHits(Pairs(r)) <==> h in r {
      if h in r {
        var i :| 0 <= i < |r| && r[i] == h;
        assert Pairs(r)[i] == (h.id, h.score);
      }
    }
  }

  lemma LiveInputs(pairs: seq<(int, Score)>, f: File, score: Vec -> Score)
    requires WellFormed(f)
    requires forall p :: p in pairs <==>
             exists i: nat :: i < NumLanes(f) && Live(LaneOf(f, score, i))
                 && p == (LaneOf(f, score, i).id, LaneOf(f, score, i).score)
    ensures InputHits(pairs) == FileHits(f, score)
    ensures (exists i :: 0 <= i < |pairs| && QuantizeScore(pairs[i].1).OutOfRange?) <==> AnyBad(BlocksOf(f, score))
  {
    FileBadByLane(f, score);
    forall h ensures h in InputHits(pairs) <==> h in FileHits(f, score) {
      FileHitsByLane(f, score, h);
      if h in InputHits(pairs) {
        var j :| 0 <= j < |pairs| && QuantizeScore(pairs[j].1).Quantized? &&
                 Hit(pairs[j].1, QuantizeScore(pairs[j].1).q, pairs[j].0) == h;
        assert pairs[j] in pairs;
        QuantizersAgree(h.score);
      }
      if i: nat :| i < NumLanes(f) && Countable(LaneOf(f, score, i)) && HitOf(LaneOf(f, score, i)) == h {
        QuantizersAgree(h.score);
        assert (h.id, h.score) in pairs;
      }
    }
    if AnyBad(BlocksOf(f, score)) {
      var i: nat :| i < NumLanes(f) && Bad(LaneOf(f, score, i));
      var p := (LaneOf(f, score, i).id, LaneOf(f, score, i).score);
      QuantizersAgree(p.1);
      assert p in pairs;
    }
    if i :| 0 <= i < |pairs| && QuantizeScore(pairs[i].1).OutOfRange? {
      assert pairs[i] in pairs;
      QuantizersAgree(pairs[i].1);
    }
  }

  lemma ReRanked(r: seq<Hit>, r2: seq<Hit>, all: set<Hit>, c: nat, k: nat)
    requires IsTopK(r, all, c) && c <= k && IsTopK(r2, Elements(r), k) && DistinctIds(all)
    ensures r2 == r
  {
    assert IsTopK(r, Elements(r), k);
    TopKUnique(r, r2, Elements(r), k);
  }

  lemma EmptyTopK(r: seq<Hit>, all: set<Hit>, c: nat)
    requires IsTopK(r, all, c) && r == [] && c > 0
    ensures all == {}
  {
    forall h | h in all ensures h in r {
    }
    assert all == {};
  }

  lemma NothingToList(r: seq<Hit>, topK: int)
    requires topK >= 0 ==> IsTopK(r, {}, topK)
    ensures topK >= 0 ==> r == []
  {
    assert r == [] || r[0] in r;
  }

  /** search_index: daemon, then the one-shot executable, then NumPy, each used
      only while there are no hits yet; whatever it was, the list is ranked
      again. Failed stands for a raised ranking error. */
  method SearchIndex(f: File, score: Vec -> Score, topK: int, plan: Plan) returns (r: Result<seq<Hit>>)
    requires WellFormed(f) && PlanOk(plan) && DistinctLanes(f)
    ensures r.Failed? <==> topK < 0 || AnyBad(BlocksOf(f, score))
    ensures r.Ok? && topK >= 1 ==> IsTopK(r.value, FileHits(f, score), Cap(plan, topK))
  {
    var blocks := BlocksOf(f, score);
    DistinctLanesLive(f, score);
    DistinctHits(blocks, Below(|blocks|));
    var hits: seq<Hit> := [];
    // once the daemon has answered with nothing, nothing is there or nothing can be ranked
    if plan.daemonUp {
      var answer := Search(blocks, DaemonK(topK), plan.threads, plan.schedules(f));
      if answer.Ok? {
        hits := answer.value;
        if hits == [] { EmptyTopK(hits, FileHits(f, score), DaemonK(topK)); }
      }
    }
    if hits == [] && plan.exePresent {
      var answer := Search(blocks, if topK < 0 then 0 else topK, plan.threads, plan.schedules(f));
      if answer.Failed? { return Failed; }
      hits := answer.value;
      if plan.daemonUp { NothingToList(hits, topK); }
    }
    assert hits != [] && topK >= 1 ==> IsTopK(hits, FileHits(f, score), Cap(plan, topK));
    if hits == [] {
      var pairs := LivePairs(f, score);
      LiveInputs(pairs, f, score);
      r := RankHits(pairs, topK);
      if r.Ok? && plan.daemonUp { NothingToList(r.value, topK); }
    } else {
      PairsInputs(hits, f, score);
      r := RankHits(Pairs(hits), topK);
      if topK >= 1 { ReRanked(hits, r.value, FileHits(f, score), Cap(plan, topK), topK); }
    }
  }

  // ------------------------------------------------------------ all segments

  /** What a date scores, by the text that was given for it. */
  ghost function DayLane(e: Embedder, score: Vec -> Score, given: Chunks, rec: DayRec): Lane
    requires rec.chunkId in given
  {
    Lane(rec.chunkId, score(e.embed(Embedded(given[rec.chunkId]))))
  }

  /** Embed every current day's given text and score it: the answer's reference set. */
  ghost function DayHits(e: Embedder, score: Vec -> Score, m: Manifest, given: Chunks): set<Hit> {
    set d | d in m.days && m.days[d].chunkId in given && Countable(DayLane(e, score, given, m.days[d])) ::
      HitOf(DayLane(e, score, given, m.days[d]))
  }

  ghost predicate SomeDayBad(e: Embedder, score: Vec -> Score, m: Manifest, given: Chunks) {
    exists d :: d in m.days && m.days[d].chunkId in given && Bad(DayLane(e, score, given, m.days[d]))
  }

  lemma LaneIsDay(e: Embedder, score: Vec -> Score, m: Manifest, disk: Disk, given: Chunks, s: Segment, i: nat)
    returns (d: Date)
    requires Agrees(e, m, disk, given, {}, map[]) && s in m.segments
    requires s.file in disk && WellFormed(disk[s.file]) && i < NumLanes(disk[s.file]) && LaneId(disk[s.file], i) >= 0
    ensures d in m.days && m.days[d].segment == s.file && m.days[d].index == i && m.days[d].chunkId in given
    ensures LaneOf(disk[s.file], score, i) == DayLane(e, score, given, m.days[d])
  {
    assert LiveAt(disk, (s.file, i));
    assert s.file in Names(m.segments);
    assert (s.file, i) in Places(m.days);
    d :| d in m.days && m.days[d].segment == s.file && m.days[d].index == i;
    assert DayOk(e, d, m.days[d], Names(m.segments), disk, given, m.next);
  }

  lemma DayIsLane(e: Embedder, score: Vec -> Score, m: Manifest, disk: Disk, given: Chunks, d: Date) returns (k: nat)
    requires Agrees(e, m, disk, given, {}, map[]) && d in m.days
    ensures k < |m.segments| && m.segments[k].file == m.days[d].segment && OwnsLane(disk, m.days[d])
    ensures m.days[d].chunkId in given && given[m.days[d].chunkId].date == d
    ensures LaneOf(disk[m.days[d].segment], score, m.days[d].index) == DayLane(e, score, given, m.days[d])
  {
    assert DayOk(e, d, m.days[d], Names(m.segments), disk, given, m.next);
    k :| 0 <= k < |m.segments| && m.segments[k].file == m.days[d].segment;
  }

  lemma SegmentDistinct(e: Embedder, m: Manifest, disk: Disk, given: Chunks, s: Segment)
    requires Agrees(e, m, disk, given, {}, map[]) && s in m.segments
    ensures s.file in disk && WellFormed(disk[s.file]) && DistinctLanes(disk[s.file])
  {
    assert SegmentOk(s, disk, 0);
    var f := disk[s.file];
    forall i: nat, j: nat | i < NumLanes(f) && j < NumLanes(f) && LaneId(f, i) >= 0 && LaneId(f, i) == LaneId(f, j)
      ensures i == j
    {
      var a := LaneIsDay(e, _ => NonFinite, m, disk, given, s, i);
      var b := LaneIsDay(e, _ => NonFinite, m, disk, given, s, j);
      assert m.days[a].chunkId == m.days[b].chunkId;
    }
  }

  lemma DayHitsDistinct(e: Embedder, score: Vec -> Score, m: Manifest, disk: Disk, given: Chunks)
    requires DaysOk(e, m, disk, given)
    ensures DistinctIds(DayHits(e, score, m, given))
  {
  }

  /** The hits of the first n segments. */
  ghost function SegmentHits(score: Vec -> Score, segments: seq<Segment>, disk: Disk, n: nat): set<Hit>
    requires n <= |segments|
    requires forall s :: s in segments ==> s.file in disk && WellFormed(disk[s.file])
  {
    if n == 0 then {}
    else SegmentHits(score, segments, disk, n - 1) + FileHits(disk[segments[n - 1].file], score)
  }

  lemma {:induction false} InSegmentHits(score: Vec -> Score, segments: seq<Segment>, disk: Disk, n: nat, h: Hit)
    requires n <= |segments|
    requires forall s :: s in segments ==> s.file in disk && WellFormed(disk[s.file])
    ensures h in SegmentHits(score, segments, disk, n) <==>
            exists k :: 0 <= k < n && h in FileHits(disk[segments[k].file], score)
  {
    hide FileHits, WellFormed;
    if n > 0 {
      InSegmentHits(score, segments, disk, n - 1, h);
    }
  }

  /** The files' live lanes, taken together, are exactly the current days. */
  lemma SegmentHitsAreDayHits(e: Embedder, score: Vec -> Score, m: Manifest, disk: Disk, given: Chunks)
    requires Agrees(e, m, disk, given, {}, map[])
    requires forall s :: s in m.segments ==> s.file in disk && WellFormed(disk[s.file])
    ensures SegmentHits(score, m.segments, disk, |m.segments|) == DayHits(e, score, m, given)
  {
    hide Agrees, SegmentHits, FileHits, LaneOf, WellFormed, OwnsLane;
    forall h ensures h in SegmentHits(score, m.segments, disk, |m.segments|) <==> h in DayHits(e, score, m, given) {
      InSegmentHits(score, m.segments, disk, |m.segments|, h);
      if k :| 0 <= k < |m.segments| && h in FileHits(disk[m.segments[k].file], score) {
        var f := disk[m.segments[k].file];
        FileHitsByLane(f, score, h);
        var i: nat :| i < NumLanes(f) && Countable(LaneOf(f, score, i)) && HitOf(LaneOf(f, score, i)) == h;
        LaneLive(f, score, i);
        var d := LaneIsDay(e, score, m, disk, given, m.segments[k], i);
        assert h in DayHits(e, score, m, given);
      }
      if h in DayHits(e, score, m, given) {
        var d :| d in m.days && m.days[d].chunkId in given && Countable(DayLane(e, score, given, m.days[d])) &&
                 HitOf(DayLane(e, score, given, m.days[d])) == h;
        var k := DayIsLane(e, score, m, disk, given, d);
        OwnedInFile(disk, m.days[d]);
        FileHitsByLane(disk[m.segments[k].file], score, h);
        assert h in FileHits(disk[m.segments[k].file], score);
      }
    }
  }

  lemma LaneLive(f: File, score: Vec -> Score, i: nat)
    requires WellFormed(f) && i < NumLanes(f)
    ensures LaneOf(f, score, i).id == LaneId(f, i)
  {
  }

  lemma OwnedInFile(disk: Disk, rec: DayRec)
    requires OwnsLane(disk, rec)
    ensures rec.segment in disk && WellFormed(disk[rec.segment]) && rec.index < NumLanes(disk[rec.segment])
  {
  }

  ghost predicate SegmentBad(score: Vec -> Score, segments: seq<Segment>, disk: Disk, k: nat)
    requires k < |segments| && segments[k].file in disk && WellFormed(disk[segments[k].file])
  {
    AnyBad(BlocksOf(disk[segments[k].file], score))
  }

  lemma SegmentBadIsDayBad(e: Embedder, score: Vec -> Score, m: Manifest, disk: Disk, given: Chunks)
    requires Agrees(e, m, disk, given, {}, map[])
    requires forall s :: s in m.segments ==> s.file in disk && WellFormed(disk[s.file])
    ensures (exists k :: 0 <= k < |m.segments| && SegmentBad(score, m.segments, disk, k)) <==>
            SomeDayBad(e, score, m, given)
  {
    hide Agrees, LaneOf, WellFormed, OwnsLane, BlocksOf, AnyBad;
    if k :| 0 <= k < |m.segments| && SegmentBad(score, m.segments, disk, k) {
      var f := disk[m.segments[k].file];
      FileBadByLane(f, score);
      var i: nat :| i < NumLanes(f) && Bad(LaneOf(f, score, i));
      LaneLive(f, score, i);
      var d := LaneIsDay(e, score, m, disk, given, m.segments[k], i);
      assert Bad(DayLane(e, score, given, m.days[d]));
    }
    if SomeDayBad(e, score, m, given) {
      var d :| d in m.days && m.days[d].chunkId in given && Bad(DayLane(e, score, given, m.days[d]));
      var k := DayIsLane(e, score, m, disk, given, d);
      OwnedInFile(disk, m.days[d]);
      FileBadByLane(disk[m.segments[k].file], score);
      assert SegmentBad(score, m.segments, disk, k);
    }
  }

  /** search_index drops ids the metadata does not know. */
  method KeepKnown(list: seq<Hit>, meta: Chunks) returns (known: seq<Hit>)
    ensures forall h :: h in known ==> h.id in meta
    ensures (forall h :: h in list ==> h.id in meta) ==> known == list
  {
    known := [];
    var i := 0;
    while i < |list|
      invariant 0 <= i <= |list|
      invariant forall h :: h in known ==> h.id in meta
      invariant (forall h :: h in list ==> h.id in meta) ==> known == list[..i]
    {
      if list[i].id in meta {
        known := known + [list[i]];
      }
      i := i + 1;
    }
  }

  ghost predicate Covered(hits: seq<Hit>, n: nat, best: map<Date, Hit>, meta: Chunks)
    requires n <= |hits| && forall h :: h in hits ==> h.id in meta
  {
    forall j :: 0 <= j < n ==> meta[hits[j].id].date in best && !Better(hits[j], best[meta[hits[j].id].date])
  }

  function DateMap(chunks: Chunks): map<int, Date> { map x | x in chunks :: chunks[x].date }

  /** One hit a date in list, none beaten by another hit of its date. */
  ghost predicate Deduped(hits: seq<Hit>, list: seq<Hit>, dates: map<int, Date>) {
    && (forall h :: h in hits ==> h.id in dates) && (forall h :: h in list ==> h in hits)
    && (forall i, j :: 0 <= i < j < |list| ==> dates[list[i].id] != dates[list[j].id])
    && (forall h :: h in hits ==> exists x :: x in list && dates[x.id] == dates[h.id] && !Better(h, x))
  }

  /** The deduplication loop: the best hit of each date. */
  method BestPerDate(hits: seq<Hit>, meta: Chunks) returns (best: map<Date, Hit>, order: seq<Date>)
    requires forall h :: h in hits ==> h.id in meta
    ensures Lists(order, best.Keys) && Covered(hits, |hits|, best, meta)
    ensures forall d :: d in best ==> best[d] in hits && meta[best[d].id].date == d
  {
    best, order := map[], [];
    var i := 0;
    while i < |hits|
      invariant 0 <= i <= |hits| && Lists(order, best.Keys)
      invariant forall d :: d in best ==> best[d] in hits && meta[best[d].id].date == d
      invariant Covered(hits, i, best, meta)
    {
      var h := hits[i];
      assert h in hits;
      var d := meta[h.id].date;
      if d !in best {
        order := order + [d];
        best := best[d := h];
      } else if Better(h, best[d]) {
        best := best[d := h];
      }
      i := i + 1;
    }
  }

  /** best.values(): one hit per date, none beaten by a hit of its date. */
  method DedupByDate(hits: seq<Hit>, meta: Chunks) returns (list: seq<Hit>)
    requires forall h :: h in hits ==> h.id in meta
    ensures Deduped(hits, list, DateMap(meta))
  {
    var best, order := BestPerDate(hits, meta);
    OrderInBest(order, best);
    list := seq(|order|, j requires 0 <= j < |order| => best[order[j]]);
    ValuesDistinct(hits, meta, best, order, list);
    forall h | h in hits ensures exists x :: x in list && meta[x.id].date == meta[h.id].date && !Better(h, x) {
      ValuesCover(hits, meta, best, order, list, h);
    }
  }

  lemma OrderInBest(order: seq<Date>, best: map<Date, Hit>)
    requires Lists(order, best.Keys)
    ensures forall j :: 0 <= j < |order| ==> order[j] in best
  {
    assert forall j :: 0 <= j < |order| ==> order[j] in best.Keys;
  }

  lemma ValuesDistinct(hits: seq<Hit>, meta: Chunks, best: map<Date, Hit>, order: seq<Date>, list: seq<Hit>)
    requires forall h :: h in hits ==> h.id in meta
    requires forall i, j :: 0 <= i < j < |order| ==> order[i] != order[j]
    requires forall d :: d in best ==> best[d] in hits && meta[best[d].id].date == d
    requires |list| == |order| && forall j :: 0 <= j < |order| ==> order[j] in best && list[j] == best[order[j]]
    ensures forall h :: h in list ==> h in hits
    ensures forall i, j :: 0 <= i < j < |list| ==> meta[list[i].id].date != meta[list[j].id].date
  {
    forall j | 0 <= j < |list| ensures list[j] in hits && meta[list[j].id].date == order[j] {
    }
  }

  lemma ValuesCover(hits: seq<Hit>, meta: Chunks, best: map<Date, Hit>, order: seq<Date>, list: seq<Hit>, h: Hit)
    requires forall h :: h in hits ==> h.id in meta
    requires Lists(order, best.Keys) && Covered(hits, |hits|, best, meta)
    requires forall d :: d in best ==> best[d] in hits && meta[best[d].id].date == d
    requires |list| == |order| && forall j :: 0 <= j < |order| ==> order[j] in best && list[j] == best[order[j]]
    requires h in hits
    ensures exists x :: x in list && x in hits && meta[x.id].date == meta[h.id].date && !Better(h, x)
  {
    hide Better;
    var j :| 0 <= j < |hits| && hits[j] == h;
    var d := meta[h.id].date;
    assert d in best.Keys;
    var k :| 0 <= k < |order| && order[k] == d;
    assert list[k] == best[d] && list[k] in list;
  }

  lemma DedupIsIdentity(e: Embedder, score: Vec -> Score, m: Manifest, disk: Disk, given: Chunks, hits: seq<Hit>,
                        list: seq<Hit>)
    requires DaysOk(e, m, disk, given)
    requires forall h :: h in hits ==> h in DayHits(e, score, m, given)
    requires forall h :: h in hits ==> h.id in given
    requires Deduped(hits, list, DateMap(given))
    ensures Elements(list) == Elements(hits)
    ensures forall i, j :: 0 <= i < j < |list| ==> list[i].id != list[j].id
  {
    forall h | h in hits ensures h in list {
      var x :| x in list && given[x.id].date == given[h.id].date && !Better(h, x);
      SameDateSameHit(e, score, m, disk, given, h, x);
    }
  }

  lemma SameDateSameHit(e: Embedder, score: Vec -> Score, m: Manifest, disk: Disk, given: Chunks, h: Hit, x: Hit)
    requires DaysOk(e, m, disk, given)
    requires h in DayHits(e, score, m, given) && x in DayHits(e, score, m, given)
    requires h.id in given && x.id in given && given[x.id].date == given[h.id].date
    ensures h == x
  {
    var a :| a in m.days && m.days[a].chunkId in given && Countable(DayLane(e, score, given, m.days[a])) &&
             HitOf(DayLane(e, score, given, m.days[a])) == h;
    var b :| b in m.days && m.days[b].chunkId in given && Countable(DayLane(e, score, given, m.days[b])) &&
             HitOf(DayLane(e, score, given, m.days[b])) == x;
    assert DayOk(e, a, m.days[a], Names(m.segments), disk, given, m.next);
    assert DayOk(e, b, m.days[b], Names(m.segments), disk, given, m.next);
  }

  /** The hits of the first n lists, in order. */
  ghost function Joined(lists: seq<seq<Hit>>, n: nat): seq<Hit>
    requires n <= |lists|
  {
    if n == 0 then [] else Joined(lists, n - 1) + lists[n - 1]
  }

  lemma {:induction false} JoinedMembers(lists: seq<seq<Hit>>, n: nat, h: Hit)
    requires n <= |lists|
    ensures h in Joined(lists, n) <==> exists j :: 0 <= j < n && h in lists[j]
  {
    if n > 0 {
      JoinedMembers(lists, n - 1, h);
    }
  }

  lemma {:induction false} JoinedPrefix(lists: seq<seq<Hit>>, more: seq<Hit>, n: nat)
    requires n <= |lists|
    ensures Joined(lists + [more], n) == Joined(lists, n)
  {
    if n > 0 {
      JoinedPrefix(lists, more, n - 1);
    }
  }

  /** search_index for one segment, up to the metadata entries. */
  method SearchSegment(e: Embedder, m: Manifest, disk: Disk, ghost given: Chunks, meta: Chunks, s: Segment,
                       score: Vec -> Score, topK: int, plan: Plan)
    returns (r: Result<seq<Hit>>)
    requires Agrees(e, m, disk, given, {}, map[]) && PlanOk(plan) && meta.Keys == given.Keys && s in m.segments
    requires s.file in disk && WellFormed(disk[s.file])
    ensures r.Failed? <==> topK < 0 || AnyBad(BlocksOf(disk[s.file], score))
    ensures r.Ok? && topK >= 1 ==> IsTopK(r.value, FileHits(disk[s.file], score), Cap(plan, topK))
    ensures r.Ok? ==> forall h :: h in r.value ==> h.id in given
  {
    hide Agrees, IsTopK, FileHits, WellFormed, PlanOk, AnyBad, BlocksOf;
    SegmentDistinct(e, m, disk, given, s);
    var answer := SearchIndex(disk[s.file], score, topK, plan);
    if answer.Failed? { return Failed; }
    if topK >= 1 {
      ListKnown(e, score, m, disk, given, s, answer.value, Cap(plan, topK));
      KnownToo(answer.value, given, meta);
    }
    var known := KeepKnown(answer.value, meta);
    KnownToo(known, meta, given);
    r := Ok(known);
  }

  /** Collect every segment's answer. */
  method Collect(e: Embedder, m: Manifest, disk: Disk, ghost given: Chunks, meta: Chunks, score: Vec -> Score,
                 topK: int, plans: Plans)
    returns (r: Result<seq<Hit>>, ghost lists: seq<seq<Hit>>)
    requires Agrees(e, m, disk, given, {}, map[]) && PlansOk(plans) && meta.Keys == given.Keys
    requires forall s :: s in m.segments ==> s.file in disk && WellFormed(disk[s.file])
    ensures r.Failed? <==> (topK < 0 && m.segments != []) || SomeDayBad(e, score, m, given)
    ensures r.Ok? ==> |lists| == |m.segments| && r.value == Joined(lists, |lists|)
    ensures r.Ok? && topK >= 1 ==>
              forall j :: 0 <= j < |lists| ==>
                  IsTopK(lists[j], FileHits(disk[m.segments[j].file], score), Cap(plans(j), topK))
    ensures r.Ok? ==> forall h :: h in r.value ==> h.id in given
  {
    hide Agrees, IsTopK, FileHits, WellFormed, SomeDayBad, PlanOk, Cap, AnyBad, BlocksOf, NumLanes;
    assert forall j: nat :: PlanOk(plans(j));
    SegmentBadIsDayBad(e, score, m, disk, given);
    lists := [];
    var hits: seq<Hit> := [];
    var i := 0;
    while i < |m.segments|
      invariant 0 <= i <= |m.segments| && |lists| == i && hits == Joined(lists, i)
      invariant forall j :: 0 <= j < i ==> !SegmentBad(score, m.segments, disk, j)
      invariant i > 0 ==> topK >= 0
      invariant topK >= 1 ==> forall j :: 0 <= j < i ==>
                IsTopK(lists[j], FileHits(disk[m.segments[j].file], score), Cap(plans(j), topK))
      invariant forall h :: h in hits ==> h.id in given
    {
      var s := m.segments[i];
      var answer := SearchSegment(e, m, disk, given, meta, s, score, topK, plans(i));
      if answer.Failed? {
        assert topK < 0 || SegmentBad(score, m.segments, disk, i);
        return Failed, lists;
      }
      JoinedPrefix(lists, answer.value, i);
      hits := hits + answer.value;
      lists := lists + [answer.value];
      i := i + 1;
    }
    r := Ok(hits);
  }

  lemma KnownToo(list: seq<Hit>, a: Chunks, b: Chunks)
    requires a.Keys == b.Keys && forall h :: h in list ==> h.id in a
    ensures forall h :: h in list ==> h.id in b
  {
    forall h | h in list ensures h.id in b { assert h.id in a.Keys; }
  }

  lemma ListKnown(e: Embedder, score: Vec -> Score, m: Manifest, disk: Disk, given: Chunks, s: Segment, list: seq<Hit>,
                  k: nat)
    requires Agrees(e, m, disk, given, {}, map[]) && s in m.segments && s.file in disk && WellFormed(disk[s.file])
    requires IsTopK(list, FileHits(disk[s.file], score), k)
    ensures forall h :: h in list ==> h.id in given
  {
    hide Agrees, FileHits, LaneOf, WellFormed;
    forall h | h in list ensures h.id in given {
      var f := disk[s.file];
      FileHitsByLane(f, score, h);
      var i: nat :| i < NumLanes(f) && Countable(LaneOf(f, score, i)) && HitOf(LaneOf(f, score, i)) == h;
      LaneLive(f, score, i);
      var d := LaneIsDay(e, score, m, disk, given, s, i);
    }
  }

  /** The rankable hits of one segment. */
  ghost function PartOf(score: Vec -> Score, disk: Disk, s: Segment): set<Hit> {
    if s.file in disk && WellFormed(disk[s.file]) then FileHits(disk[s.file], score) else {}
  }

  ghost function PartsOf(score: Vec -> Score, segments: seq<Segment>, disk: Disk): seq<set<Hit>> {
    seq(|segments|, j requires 0 <= j < |segments| => PartOf(score, disk, segments[j]))
  }

  ghost function CapsOf(plans: Plans, topK: nat, n: nat): seq<nat> {
    seq<nat>(n, j requires 0 <= j < n => Cap(plans(j), topK))
  }

  /** Two segments have no hit in common. */
  lemma PartsDisjoint(e: Embedder, score: Vec -> Score, m: Manifest, disk: Disk, given: Chunks, i: nat, j: nat, h: Hit)
    requires Agrees(e, m, disk, given, {}, map[]) && i < j < |m.segments|
    requires forall s :: s in m.segments ==> s.file in disk && WellFormed(disk[s.file])
    ensures h !in FileHits(disk[m.segments[i].file], score) || h !in FileHits(disk[m.segments[j].file], score)
  {
    hide FileHits, LaneOf, WellFormed, OwnsLane, SegmentOk, Owned;
    var f, g := disk[m.segments[i].file], disk[m.segments[j].file];
    FileHitsByLane(f, score, h);
    FileHitsByLane(g, score, h);
    if h in FileHits(f, score) && h in FileHits(g, score) {
      var a: nat :| a < NumLanes(f) && Countable(LaneOf(f, score, a)) && HitOf(LaneOf(f, score, a)) == h;
      var b: nat :| b < NumLanes(g) && Countable(LaneOf(g, score, b)) && HitOf(LaneOf(g, score, b)) == h;
      LaneLive(f, score, a);
      LaneLive(g, score, b);
      var d := LaneIsDay(e, score, m, disk, given, m.segments[i], a);
      var d' := LaneIsDay(e, score, m, disk, given, m.segments[j], b);
      assert false;
    }
  }

  /** The segments' answers are the current days, cut segment by segment. */
  lemma AnswersCutDays(e: Embedder, score: Vec -> Score, m: Manifest, disk: Disk, given: Chunks,
                       lists: seq<seq<Hit>>, caps: seq<nat>)
    requires Agrees(e, m, disk, given, {}, map[]) && |lists| == |caps| == |m.segments|
    requires forall s :: s in m.segments ==> s.file in disk && WellFormed(disk[s.file])
    requires forall j :: 0 <= j < |lists| ==> IsTopK(lists[j], FileHits(disk[m.segments[j].file], score), caps[j])
    ensures CutParts(DayHits(e, score, m, given), PartsOf(score, m.segments, disk), lists, caps,
                     Elements(Joined(lists, |lists|)))
  {
    hide Agrees, IsTopK, FileHits, WellFormed, DayHits, SegmentHits, Joined;
    var all, parts := DayHits(e, score, m, given), PartsOf(score, m.segments, disk);
    SegmentHitsAreDayHits(e, score, m, disk, given);
    forall h ensures h in all <==> exists j :: 0 <= j < |parts| && h in parts[j] {
      InSegmentHits(score, m.segments, disk, |m.segments|, h);
      if k :| 0 <= k < |m.segments| && h in FileHits(disk[m.segments[k].file], score) { assert h in parts[k]; }
    }
    forall i, j | 0 <= i < j < |parts| ensures parts[i] !! parts[j] {
      forall h | h in parts[i] ensures h !in parts[j] { PartsDisjoint(e, score, m, disk, given, i, j, h); }
    }
    forall h ensures h in Elements(Joined(lists, |lists|)) <==> exists j :: 0 <= j < |lists| && h in lists[j] {
      JoinedMembers(lists, |lists|, h);
    }
  }

  /** No segment holds more of the k best days than it may contribute. */
  ghost predicate NoSegmentOverCap(e: Embedder, score: Vec -> Score, m: Manifest, disk: Disk, given: Chunks,
                                   plans: Plans, k: nat) {
    forall j :: 0 <= j < |m.segments| ==>
      |Elements(KBest(DayHits(e, score, m, given), k)) * PartOf(score, disk, m.segments[j])| <= Cap(plans(j), k)
  }

  /** Merging the segments' lists, deduplicated by date, gives the k best of all days
      exactly when no segment holds more of them than it may contribute. */
  lemma MergedAnswer(e: Embedder, score: Vec -> Score, m: Manifest, disk: Disk, given: Chunks, lists: seq<seq<Hit>>,
                     plans: Plans, hits: seq<Hit>, list: seq<Hit>, sorted: seq<Hit>, k: nat)
    requires Agrees(e, m, disk, given, {}, map[])
    requires forall s :: s in m.segments ==> s.file in disk && WellFormed(disk[s.file])
    requires |lists| == |m.segments| && hits == Joined(lists, |lists|)
    requires forall j :: 0 <= j < |lists| ==>
             IsTopK(lists[j], FileHits(disk[m.segments[j].file], score), Cap(plans(j), k))
    requires forall h :: h in hits ==> h.id in given
    requires Deduped(hits, list, DateMap(given))
    requires Sorted(sorted) && multiset(sorted) == multiset(list)
    ensures IsTopK(if k < |sorted| then sorted[..k] else sorted, DayHits(e, score, m, given), k) <==>
            NoSegmentOverCap(e, score, m, disk, given, plans, k)
  {
    hide IsTopK, FileHits, WellFormed, Sorted, Better, PartOf, KBest, Joined, CutParts, Cap;
    var all, parts, caps := DayHits(e, score, m, given), PartsOf(score, m.segments, disk), CapsOf(plans, k, |lists|);
    DayHitsDistinct(e, score, m, disk, given);
    AnswersCutDays(e, score, m, disk, given, lists, caps);
    JoinedInDays(all, parts, lists, caps, hits);
    DedupIsIdentity(e, score, m, disk, given, hits, list);
    CutOfSorted(sorted, list, k);
    var r := if k < |sorted| then sorted[..k] else sorted;
    CutPartsExact(KBest(all, k), r, all, parts, lists, caps, Elements(hits), k);
    assert |parts| == |m.segments| by { assert CutParts(all, parts, lists, caps, Elements(hits)); }
    forall j | 0 <= j < |parts|
      ensures parts[j] == PartOf(score, disk, m.segments[j]) && caps[j] == Cap(plans(j), k)
    {
    }
  }

  lemma JoinedInDays(all: set<Hit>, parts: seq<set<Hit>>, lists: seq<seq<Hit>>, caps: seq<nat>, hits: seq<Hit>)
    requires CutParts(all, parts, lists, caps, Elements(hits))
    ensures forall h :: h in hits ==> h in all
  {
    forall h | h in hits ensures h in all {
      assert h in Elements(hits);
      var j :| 0 <= j < |lists| && h in lists[j];
      assert h in parts[j];
    }
  }

  ghost predicate DaemonDown(plans: Plans, n: nat) {
    forall j: nat :: j < n ==> !plans(j).daemonUp
  }

  /** At most 64 days are asked for, or the daemon is down: nothing is over its cap. */
  lemma UncappedFits(e: Embedder, score: Vec -> Score, m: Manifest, disk: Disk, given: Chunks, plans: Plans, k: nat)
    requires DaysOk(e, m, disk, given)
    requires k <= SCRATCH_MAX_K || DaemonDown(plans, |m.segments|)
    ensures NoSegmentOverCap(e, score, m, disk, given, plans, k)
  {
    hide DayHits, PartOf;
    DayHitsDistinct(e, score, m, disk, given);
    var t := KBest(DayHits(e, score, m, given), k);
    OrderedSize(t);
    forall j | 0 <= j < |m.segments| ensures |Elements(t) * PartOf(score, disk, m.segments[j])| <= Cap(plans(j), k) {
      SubsetSize(Elements(t) * PartOf(score, disk, m.segments[j]), Elements(t));
    }
  }

  /** The metadata has the ids and the dates of the given chunks. */
  lemma SavedDates(given: Chunks)
    ensures Saved(given).Keys == given.Keys && DateMap(Saved(given)) == DateMap(given)
  {
    hide CanonicalizeText;
    var a, b := DateMap(Saved(given)), DateMap(given);
    assert a.Keys == b.Keys;
    forall x | x in b ensures x in a && a[x] == b[x] {
      assert x in Saved(given) && Saved(given)[x] == Stored(given[x]);
    }
  }

  /** What the text given under an id scores: title, newline and body are embedded. */
  ghost function GivenScore(e: Embedder, score: Vec -> Score, given: Chunks, id: int): Score
    requires id in given
  {
    score(e.embed(given[id].title + "\n" + given[id].body))
  }

  /** In the days' own ids and texts: at most k current days, best first in the scores, and no
      day left out unless k better ones are listed. */
  ghost predicate BestDays(e: Embedder, score: Vec -> Score, m: Manifest, given: Chunks, r: seq<Hit>, k: nat) {
    && BestFirst(r) && |r| <= k
    && (forall h :: h in r ==>
          && h.id in given && h.score == GivenScore(e, score, given, h.id)
          && exists d :: d in m.days && m.days[d].chunkId == h.id)
    && (forall d :: d in m.days && m.days[d].chunkId in given ==>
          ListedOrBeaten(r, k, m.days[d].chunkId, GivenScore(e, score, given, m.days[d].chunkId)))
  }

  lemma DayBadMeaning(e: Embedder, score: Vec -> Score, m: Manifest, given: Chunks)
    ensures SomeDayBad(e, score, m, given) <==>
            exists d :: d in m.days && 0 <= m.days[d].chunkId && m.days[d].chunkId in given
                && !Rankable(GivenScore(e, score, given, m.days[d].chunkId))
  {
    hide Rankable, TryQuantizeScore;
    forall d | d in m.days && m.days[d].chunkId in given
      ensures Bad(DayLane(e, score, given, m.days[d])) <==>
              0 <= m.days[d].chunkId && !Rankable(GivenScore(e, score, given, m.days[d].chunkId))
    {
      RankableMeaning(DayLane(e, score, given, m.days[d]).score);
    }
  }

  lemma DayHitsRankValued(e: Embedder, score: Vec -> Score, m: Manifest, given: Chunks)
    ensures RankValued(DayHits(e, score, m, given))
  {
    hide TryQuantizeScore;
    forall h | h in DayHits(e, score, m, given)
      ensures Rankable(h.score) && h.scoreQ == (h.score.value * 1000000.0 + 0.5).Floor
    {
      RankableMeaning(h.score);
    }
  }

  lemma DayHitsInScores(e: Embedder, score: Vec -> Score, m: Manifest, disk: Disk, given: Chunks, r: seq<Hit>, k: nat)
    requires DaysOk(e, m, disk, given) && !SomeDayBad(e, score, m, given)
    requires IsTopK(r, DayHits(e, score, m, given), k)
    ensures BestDays(e, score, m, given, r, k)
  {
    hide BestFirst, ListedOrBeaten, RankValued, TryQuantizeScore, OwnsLane;
    var all := DayHits(e, score, m, given);
    DayHitsRankValued(e, score, m, given);
    TopKInScores(r, all, k);
    forall d | d in m.days && m.days[d].chunkId in given
      ensures ListedOrBeaten(r, k, m.days[d].chunkId, GivenScore(e, score, given, m.days[d].chunkId))
    {
      var lane := DayLane(e, score, given, m.days[d]);
      assert DayOk(e, d, m.days[d], Names(m.segments), disk, given, m.next);
      assert !Bad(lane);
      assert HitOf(lane) in all;
    }
    forall h | h in r
      ensures h.id in given && h.score == GivenScore(e, score, given, h.id)
      ensures exists d :: d in m.days && m.days[d].chunkId == h.id
    {
      assert h in all;
    }
  }

  /** search_lsm on an agreeing index: the first top_k current days by
      (-quantised score, chunk id), as if every day had been embedded and ranked,
      exactly when no segment that the daemon answers holds more than 64 of them. */
  method SearchLsm(e: Embedder, m: Manifest, disk: Disk, ghost given: Chunks, meta: Chunks, score: Vec -> Score,
                   topK: int, plans: Plans)
    returns (r: Result<seq<Hit>>)
    requires Agrees(e, m, disk, given, {}, map[]) && HashesOk(m.segments, disk)
    requires PlansOk(plans) && meta == Saved(given)
    ensures r.Failed? <==> (topK < 0 && m.segments != []) || SomeDayBad(e, score, m, given)
    ensures r.Failed? <==> (topK < 0 && m.segments != [])
                           || exists d :: d in m.days && 0 <= m.days[d].chunkId && m.days[d].chunkId in given
                                  && !Rankable(GivenScore(e, score, given, m.days[d].chunkId))
    ensures r.Ok? && 1 <= topK && (topK <= 64 || DaemonDown(plans, |m.segments|)) ==>
              BestDays(e, score, m, given, r.value, topK)
    ensures r.Ok? && topK >= 1 ==>
              (IsTopK(r.value, DayHits(e, score, m, given), topK) <==>
               NoSegmentOverCap(e, score, m, disk, given, plans, topK))
    ensures r.Ok? && 1 <= topK && (topK <= SCRATCH_MAX_K || DaemonDown(plans, |m.segments|)) ==>
              IsTopK(r.value, DayHits(e, score, m, given), topK)
    ensures r.Ok? && topK <= 0 ==> r.value == []
  {
    PreflightPasses(e, m, disk, given, {});
    assert Preflight(m, disk);
    forall s | s in m.segments ensures s.file in disk && WellFormed(disk[s.file]) {
      assert SegmentOk(s, disk, 0);
    }
    assert DaysOk(e, m, disk, given);
    hide Agrees, IsTopK, FileHits, WellFormed, SomeDayBad, DayHits, Preflight, DaysOk, PlansOk, NoSegmentOverCap,
         DaemonDown, Better, Saved, Deduped, BestDays, Rankable, GivenScore;
    DayBadMeaning(e, score, m, given);
    SavedDates(given);
    var answer, lists := Collect(e, m, disk, given, meta, score, topK, plans);
    if answer.Failed? { return Failed; }
    var list := DedupByDate(answer.value, meta);
    var sorted := StableSort(list);
    if topK >= 1 {
      MergedAnswer(e, score, m, disk, given, lists, plans, answer.value, list, sorted, topK);
      if topK <= SCRATCH_MAX_K || DaemonDown(plans, |m.segments|) {
        UncappedFits(e, score, m, disk, given, plans, topK);
        DayHitsInScores(e, score, m, disk, given, if topK < |sorted| then sorted[..topK] else sorted, topK);
      }
    }
    r := Ok(if 0 <= topK < |sorted| then sorted[..topK] else if topK < 0 then [] else sorted);
  }

  // ------------------------------------------------------------ consequences

  /** Compaction does not change any answer: the reference set only depends on
      the days' ids and texts. */
  lemma CompactionKeepsAnswers(e: Embedder, score: Vec -> Score, m: Manifest, m2: Manifest, given: Chunks,
                               r: seq<Hit>, r2: seq<Hit>, k: nat, disk: Disk)
    requires DaysOk(e, m, disk, given) && SameContent(m.days, m2.days)
    requires IsTopK(r, DayHits(e, score, m, given), k) && IsTopK(r2, DayHits(e, score, m2, given), k)
    ensures r == r2
  {
    forall h ensures h in DayHits(e, score, m, given) <==> h in DayHits(e, score, m2, given) {
      forall d | d in m.days ensures d in m2.days && m2.days[d].chunkId == m.days[d].chunkId { }
      forall d | d in m2.days ensures d in m.days { }
    }
    DayHitsDistinct(e, score, m, disk, given);
    assert DayHits(e, score, m, given) == DayHits(e, score, m2, given);
    TopKUnique(r, r2, DayHits(e, score, m, given), k);
  }

  /** Above 64 the daemon's clamp shows: its answer for one segment is the true
      top_k exactly when the segment has at most 64 rankable hits. */
  lemma DaemonClampExact(r: seq<Hit>, all: set<Hit>, topK: nat)
    requires IsTopK(r, all, DaemonK(topK)) && topK > 64
    ensures IsTopK(r, all, topK) <==> |all| <= 64
  {
    OrderedSize(r);
    if all <= Elements(r) {
      SubsetSize(all, Elements(r));
    }
    if |all| <= SCRATCH_MAX_K {
      forall h | h in all ensures h in r {
        SubsetSize(Elements(r) + {h}, all);
        assert h !in Elements(r) ==> |Elements(r) + {h}| == |r| + 1;
      }
    }
  }

  // ------------------------------------------------------------ the diary itself

  /** What a date scores by the diary's own text. */
  ghost function CorpusLane(e: Embedder, score: Vec -> Score, rec: DayRec, chunk: Chunk): Lane {
    Lane(rec.chunkId, score(e.embed(Embedded(chunk))))
  }

  /** Embed the last text of every date and rank it under the day's chunk id. */
  ghost function CorpusHits(e: Embedder, score: Vec -> Score, m: Manifest, daily: seq<Chunk>): set<Hit> {
    set d | d in ByDate(daily) && d in m.days && Countable(CorpusLane(e, score, m.days[d], ByDate(daily)[d])) ::
      HitOf(CorpusLane(e, score, m.days[d], ByDate(daily)[d]))
  }

  /** What a chunk of the diary scores: its title, newline and body are embedded. */
  ghost function ChunkScore(e: Embedder, score: Vec -> Score, c: Chunk): Score {
    score(e.embed(c.title + "\n" + c.body))
  }

  /** h is the hit of the i-th chunk: the last of its date, under the day's id, with the
      rank value of its score. */
  ghost predicate ChunkHit(e: Embedder, score: Vec -> Score, days: map<Date, DayRec>, daily: seq<Chunk>, i: int,
                           h: Hit) {
    && LastOf(daily, i) && daily[i].date in days && h.id == days[daily[i].date].chunkId
    && h.score == ChunkScore(e, score, daily[i])
    && Rankable(h.score) && h.scoreQ == (h.score.value * 1000000.0 + 0.5).Floor
  }

  lemma ChunkLane(e: Embedder, score: Vec -> Score, m: Manifest, given: Chunks, daily: seq<Chunk>, i: int)
    requires Covers(m, given, daily) && LastOf(daily, i)
    ensures var c := daily[i];
            && c.date in ByDate(daily) && ByDate(daily)[c.date] == c && c.date in m.days
            && var lane := CorpusLane(e, score, m.days[c.date], c);
               && lane.score == ChunkScore(e, score, c) && lane.id == m.days[c.date].chunkId
               && (Bad(lane) <==> !Rankable(lane.score)) && (Countable(lane) <==> Rankable(lane.score))
               && (Rankable(lane.score) ==> HitOf(lane).scoreQ == (lane.score.value * 1000000.0 + 0.5).Floor)
  {
    hide ByDate, TryQuantizeScore, UniqueIds;
    ByDateMeaning(daily);
    assert daily[i].date in m.days.Keys;
    RankableMeaning(ChunkScore(e, score, daily[i]));
    assert CorpusLane(e, score, m.days[daily[i].date], daily[i]).score == ChunkScore(e, score, daily[i]);
  }

  /** The diary's hits by position: those of the last chunk of each date, and nothing else. */
  lemma CorpusHitsMeaning(e: Embedder, score: Vec -> Score, m: Manifest, given: Chunks, daily: seq<Chunk>, h: Hit)
    requires Covers(m, given, daily)
    ensures h in CorpusHits(e, score, m, daily) <==> exists i :: ChunkHit(e, score, m.days, daily, i, h)
  {
    hide ByDate, TryQuantizeScore, UniqueIds, Rankable, ChunkScore, Covers, CorpusLane, Countable, Bad;
    if h in CorpusHits(e, score, m, daily) {
      var d :| d in ByDate(daily) && d in m.days && Countable(CorpusLane(e, score, m.days[d], ByDate(daily)[d]))
          && HitOf(CorpusLane(e, score, m.days[d], ByDate(daily)[d])) == h;
      var i := LastOfDate(daily, d);
      ChunkLane(e, score, m, given, daily, i);
      assert ChunkHit(e, score, m.days, daily, i, h);
    }
    if i :| ChunkHit(e, score, m.days, daily, i, h) {
      ChunkLane(e, score, m, given, daily, i);
      var lane := CorpusLane(e, score, m.days[daily[i].date], daily[i]);
      assert HitOf(lane) == h;
    }
  }

  /** In the diary's own chunks: at most k days, best first in the scores, each under the
      score of the last chunk of its date, and no date left out unless k better ones are listed. */
  ghost predicate BestOfDiary(e: Embedder, score: Vec -> Score, days: map<Date, DayRec>, daily: seq<Chunk>,
                              r: seq<Hit>, k: nat) {
    && BestFirst(r) && |r| <= k
    && (forall h :: h in r ==>
          exists i :: LastOf(daily, i) && daily[i].date in days && days[daily[i].date].chunkId == h.id
              && h.score == ChunkScore(e, score, daily[i]))
    && (forall i :: LastOf(daily, i) ==>
          && daily[i].date in days
          && ListedOrBeaten(r, k, days[daily[i].date].chunkId, ChunkScore(e, score, daily[i])))
  }

  lemma TextBadMeaning(e: Embedder, score: Vec -> Score, m: Manifest, given: Chunks, daily: seq<Chunk>)
    requires Covers(m, given, daily)
    ensures SomeTextBad(e, score, m, daily) <==>
            exists i :: LastOf(daily, i) && !Rankable(ChunkScore(e, score, daily[i]))
  {
    hide ByDate, UniqueIds, Rankable, ChunkScore, Covers, CorpusLane, Countable, Bad;
    if SomeTextBad(e, score, m, daily) {
      var d :| d in ByDate(daily) && d in m.days && Bad(CorpusLane(e, score, m.days[d], ByDate(daily)[d]));
      var i := LastOfDate(daily, d);
      ChunkLane(e, score, m, given, daily, i);
      assert !Rankable(ChunkScore(e, score, daily[i]));
    }
    if i :| LastOf(daily, i) && !Rankable(ChunkScore(e, score, daily[i])) {
      ChunkLane(e, score, m, given, daily, i);
    }
  }

  lemma CorpusHitsInScores(e: Embedder, score: Vec -> Score, m: Manifest, given: Chunks, daily: seq<Chunk>,
                           r: seq<Hit>, k: nat)
    requires Covers(m, given, daily) && !SomeTextBad(e, score, m, daily)
    requires IsTopK(r, CorpusHits(e, score, m, daily), k)
    ensures BestOfDiary(e, score, m.days, daily, r, k)
  {
    hide BestFirst, ListedOrBeaten, ByDate, CorpusHits, SomeTextBad, ChunkScore, Covers, TryQuantizeScore;
    var all := CorpusHits(e, score, m, daily);
    TextBadMeaning(e, score, m, given, daily);
    forall h | h in all
      ensures Rankable(h.score) && h.scoreQ == (h.score.value * 1000000.0 + 0.5).Floor
      ensures exists i :: LastOf(daily, i) && daily[i].date in m.days && m.days[daily[i].date].chunkId == h.id
                  && h.score == ChunkScore(e, score, daily[i])
    {
      CorpusHitsMeaning(e, score, m, given, daily, h);
    }
    TopKInScores(r, all, k);
    forall i | LastOf(daily, i)
      ensures daily[i].date in m.days
      ensures ListedOrBeaten(r, k, m.days[daily[i].date].chunkId, ChunkScore(e, score, daily[i]))
    {
      ChunkLane(e, score, m, given, daily, i);
      var s := ChunkScore(e, score, daily[i]);
      assert Rankable(s);
      var h := Hit(s, (s.value * 1000000.0 + 0.5).Floor, m.days[daily[i].date].chunkId);
      assert ChunkHit(e, score, m.days, daily, i, h);
      CorpusHitsMeaning(e, score, m, given, daily, h);
    }
  }

  ghost predicate SomeTextBad(e: Embedder, score: Vec -> Score, m: Manifest, daily: seq<Chunk>) {
    exists d :: d in ByDate(daily) && d in m.days && Bad(CorpusLane(e, score, m.days[d], ByDate(daily)[d]))
  }

  /** The index covers exactly the diary's dates and knows each day's text. */
  ghost predicate Covers(m: Manifest, given: Chunks, daily: seq<Chunk>) {
    && m.days.Keys == ByDate(daily).Keys && UniqueIds(m.days)
    && forall d :: d in m.days ==> m.days[d].chunkId in given && m.days[d].chunkId >= 0
  }

  /** The text given for every day embeds as the diary's does. */
  ghost predicate SameVectors(e: Embedder, m: Manifest, given: Chunks, daily: seq<Chunk>)
    requires Covers(m, given, daily)
  {
    forall d :: d in m.days && d in ByDate(daily) ==>
        e.embed(Embedded(given[m.days[d].chunkId])) == e.embed(Embedded(ByDate(daily)[d]))
  }

  /** The text given for every day is the diary's, character by character. */
  ghost predicate SameTexts(m: Manifest, given: Chunks, daily: seq<Chunk>)
    requires Covers(m, given, daily)
  {
    forall d :: d in m.days && d in ByDate(daily) ==> Embedded(given[m.days[d].chunkId]) == Embedded(ByDate(daily)[d])
  }

  lemma SameLanes(e: Embedder, score: Vec -> Score, m: Manifest, given: Chunks, daily: seq<Chunk>)
    requires Covers(m, given, daily) && SameVectors(e, m, given, daily)
    ensures DayHits(e, score, m, given) == CorpusHits(e, score, m, daily)
    ensures SomeDayBad(e, score, m, given) <==> SomeTextBad(e, score, m, daily)
  {
    hide UniqueIds, Countable, Bad, HitOf;
    forall d | d in m.days
      ensures d in ByDate(daily) && m.days[d].chunkId in given
      ensures DayLane(e, score, given, m.days[d]) == CorpusLane(e, score, m.days[d], ByDate(daily)[d])
    {
      assert d in m.days.Keys;
    }
    forall h ensures h in DayHits(e, score, m, given) <==> h in CorpusHits(e, score, m, daily) {
    }
  }

  /** A score that only ranks the vector v. */
  function Spotlight(v: Vec): Vec -> Score {
    x => if x == v then Finite(0.0) else NonFinite
  }

  lemma SpotlightSeparates(e: Embedder, m: Manifest, given: Chunks, daily: seq<Chunk>, d: Date)
    requires Covers(m, given, daily) && d in m.days && d in ByDate(daily)
    requires e.embed(Embedded(given[m.days[d].chunkId])) != e.embed(Embedded(ByDate(daily)[d]))
    ensures exists score: Vec -> Score :: DayHits(e, score, m, given) != CorpusHits(e, score, m, daily)
  {
    var v := e.embed(Embedded(given[m.days[d].chunkId]));
    var score := Spotlight(v);
    var lane := DayLane(e, score, given, m.days[d]);
    assert Finite(0.0) == lane.score && Countable(lane);
    var h := HitOf(lane);
    assert h in DayHits(e, score, m, given);
    assert h !in CorpusHits(e, score, m, daily) by {
      forall c | c in ByDate(daily) && c in m.days && Countable(CorpusLane(e, score, m.days[c], ByDate(daily)[c]))
        ensures HitOf(CorpusLane(e, score, m.days[c], ByDate(daily)[c])) != h
      {
        assert m.days[c].chunkId == m.days[d].chunkId ==> c == d;
      }
    }
  }

  /** The index ranks like the diary for every score exactly when the text given
      for each day embeds as the day's current text does. */
  lemma DayHitsAreCorpusHits(e: Embedder, m: Manifest, given: Chunks, daily: seq<Chunk>)
    requires Covers(m, given, daily)
    ensures (forall score: Vec -> Score :: DayHits(e, score, m, given) == CorpusHits(e, score, m, daily))
            <==> SameVectors(e, m, given, daily)
  {
    hide DayHits, CorpusHits;
    if SameVectors(e, m, given, daily) {
      forall score: Vec -> Score ensures DayHits(e, score, m, given) == CorpusHits(e, score, m, daily) {
        SameLanes(e, score, m, given, daily);
      }
    } else {
      var d :| d in m.days && d in ByDate(daily)
          && e.embed(Embedded(given[m.days[d].chunkId])) != e.embed(Embedded(ByDate(daily)[d]));
      SpotlightSeparates(e, m, given, daily, d);
    }
  }

  /** An embedder that tells t from every other text. */
  function Telling(e: Embedder, t: Text): Embedder {
    e.(embed := x => if x == t then seq(384, _ => 1) else seq(384, _ => 0))
  }

  lemma TellingTells(e: Embedder, t: Text, u: Text)
    requires t != u
    ensures Telling(e, t).embed(t) != Telling(e, t).embed(u)
  {
    assert Telling(e, t).embed(t)[0] == 1 && Telling(e, t).embed(u)[0] == 0;
  }

  /** Whatever the embedder, this holds exactly when the given texts are the diary's
      literally. */
  lemma SameForAllEmbedders(e: Embedder, m: Manifest, given: Chunks, daily: seq<Chunk>)
    requires Covers(m, given, daily)
    ensures (forall embed: Text -> Vec :: SameVectors(e.(embed := embed), m, given, daily)) <==>
            SameTexts(m, given, daily)
  {
    if !SameTexts(m, given, daily) {
      var d :| d in m.days && d in ByDate(daily) && Embedded(given[m.days[d].chunkId]) != Embedded(ByDate(daily)[d]);
      var t := Embedded(given[m.days[d].chunkId]);
      TellingTells(e, t, Embedded(ByDate(daily)[d]));
      assert e.(embed := Telling(e, t).embed) == Telling(e, t);
      assert !SameVectors(e.(embed := Telling(e, t).embed), m, given, daily);
    }
  }
}
