/** The log-structured day index of lsm_index.py: segment files, the manifest
    that maps each date to a lane, tombstones and compaction. */
module LsmIndex {
  import opened Common
  import opened AosoaFile
  import opened CanonicalText

  type Date = string
  type Text = string

  /** A daily chunk. */
  datatype Chunk = Chunk(date: Date, title: Text, body: Text)

  /** What is embedded, and what the content hash is taken of. */
  function Embedded(c: Chunk): Text { c.title + [NEWLINE] + c.body }

  /** The chunk as _save_meta writes it: every string in canonical form. Dates are in the
      form of normalize_date, which has no white space. */
  function Stored(c: Chunk): Chunk { Chunk(c.date, CanonicalizeText(c.title), CanonicalizeText(c.body)) }

  /** The embedder followed by normalisation, and content_hash: what it digests is
      stated where it matters. */
  datatype Embedder = Embedder(embed: Text -> Vec, hash: Text -> int)

  /** A manifest segment record. The file is named by its number, and the
      payload stands for its own (injective) hash. */
  datatype Segment = Segment(file: nat, live: int, dead: int, payload: File)

  datatype DayRec = DayRec(chunkId: int, segment: nat, index: nat, tombOffset: nat, contentHash: int)

  datatype Manifest = Manifest(next: nat, segments: seq<Segment>, days: map<Date, DayRec>)

  type Disk = map<nat, File>
  /** Chunks by id. The given ones are those that were embedded, as they were then; the
      metadata file keeps only what Saved makes of them. */
  type Chunks = map<int, Chunk>

  function Saved(chunks: Chunks): Chunks { map x | x in chunks :: Stored(chunks[x]) }

  const MAX_SEGMENTS := 8
  const LAST_SEGMENT_NUMBER := 999999

  /** A lane of a segment file. */
  type Place = (nat, nat)

  // ------------------------------------------------------------ agreement

  function Names(segments: seq<Segment>): set<nat> {
    set s | s in segments :: s.file
  }

  ghost predicate DistinctNames(segments: seq<Segment>) {
    forall i, j :: 0 <= i < j < |segments| ==> segments[i].file != segments[j].file
  }

  /** The file decodes, padding is -1 and no id is below -1. */
  ghost predicate Sound(f: File) {
    WellFormed(f) && Padded(f) && forall i: nat :: i < NumLanes(f) ==> LaneId(f, i) >= TOMB
  }

  /** The record's counts match the lanes, off by the tombstones not yet counted. */
  ghost predicate SegmentOk(s: Segment, disk: Disk, uncounted: int) {
    && s.file in disk && Sound(disk[s.file])
    && s.live == |LiveLanes(disk[s.file])| + uncounted
    && s.live + s.dead == NumVectors(disk[s.file])
    && 1 <= s.file <= MAX_SEGMENTS + 2
  }

  function Get(counts: map<nat, nat>, file: nat): nat {
    if file in counts then counts[file] else 0
  }

  ghost predicate SegmentsOk(segments: seq<Segment>, disk: Disk, uncounted: map<nat, nat>) {
    && DistinctNames(segments)
    && forall s :: s in segments ==> SegmentOk(s, disk, Get(uncounted, s.file))
  }

  ghost predicate HashesOk(segments: seq<Segment>, disk: Disk) {
    forall s :: s in segments ==> s.file in disk && s.payload == disk[s.file]
  }

  ghost function Places(days: map<Date, DayRec>): set<Place> {
    set d | d in days :: (days[d].segment, days[d].index)
  }

  ghost function ChunkIds(days: map<Date, DayRec>): set<int> {
    set d | d in days :: days[d].chunkId
  }

  ghost predicate UniqueIds(days: map<Date, DayRec>) {
    forall d, e :: d in days && e in days && days[d].chunkId == days[e].chunkId ==> d == e
  }

  ghost predicate LiveAt(disk: Disk, p: Place) {
    p.0 in disk && WellFormed(disk[p.0]) && p.1 < NumLanes(disk[p.0]) && LaneId(disk[p.0], p.1) >= 0
  }

  /** Every live lane of the named segments is some day's, or is stale. */
  ghost predicate Owned(names: set<nat>, disk: Disk, days: map<Date, DayRec>, stale: set<Place>) {
    forall p: Place :: p.0 in names && LiveAt(disk, p) ==> p in Places(days) || p in stale
  }

  ghost predicate OwnsLane(disk: Disk, rec: DayRec) {
    && rec.segment in disk && WellFormed(disk[rec.segment])
    && rec.index < NumLanes(disk[rec.segment]) && rec.tombOffset == TombOffset(rec.index)
    && LaneId(disk[rec.segment], rec.index) == rec.chunkId
  }

  /** The day's lane holds its chunk id and the vector of the text given for it, which
      has the recorded content hash. */
  ghost predicate DayOk(e: Embedder, d: Date, rec: DayRec, names: set<nat>, disk: Disk, given: Chunks, next: nat) {
    && rec.segment in names && OwnsLane(disk, rec)
    && 0 <= rec.chunkId < next && rec.chunkId in given && given[rec.chunkId].date == d
    && e.hash(Embedded(given[rec.chunkId])) == rec.contentHash
    && LaneVec(disk[rec.segment], rec.index) == e.embed(Embedded(given[rec.chunkId]))
  }

  ghost predicate DaysOk(e: Embedder, m: Manifest, disk: Disk, given: Chunks) {
    && UniqueIds(m.days)
    && forall d :: d in m.days ==> DayOk(e, d, m.days[d], Names(m.segments), disk, given, m.next)
  }

  /** Manifest, given chunks and files agree, but for stale lanes still to be
      tombstoned and tombstones still to be counted. */
  ghost predicate Agrees(e: Embedder, m: Manifest, disk: Disk, given: Chunks, stale: set<Place>,
                         uncounted: map<nat, nat>) {
    && SegmentsOk(m.segments, disk, uncounted)
    && DaysOk(e, m, disk, given)
    && Owned(Names(m.segments), disk, m.days, stale)
    && stale !! Places(m.days)
    && (forall p: Place :: p in stale ==> p.0 in Names(m.segments) && LiveAt(disk, p))
    && given.Keys == ChunkIds(m.days)
  }

  /** _preflight_manifest: what every load and save checks, or raises. */
  ghost predicate Preflight(m: Manifest, disk: Disk) {
    && (forall s :: s in m.segments ==>
          && s.file in disk && s.payload == disk[s.file] && s.live >= 0 && s.dead >= 0
          && 1 <= s.file <= LAST_SEGMENT_NUMBER)
    && DistinctNames(m.segments)
    && (forall d :: d in m.days ==>
          && m.days[d].segment in Names(m.segments) && 0 <= m.days[d].chunkId < m.next
          && m.days[d].tombOffset == TombOffset(m.days[d].index))
  }

  // ------------------------------------------------------------ small lemmas

  lemma StoredTwice(c: Chunk)
    ensures Stored(Stored(c)) == Stored(c)
  {
    CanonicalTwice(c.title);
    CanonicalTwice(c.body);
  }

  /** What is stored has the canonical text of what was given, hence its content hash. */
  lemma StoredText(c: Chunk)
    ensures CanonicalizeText(Embedded(Stored(c))) == CanonicalizeText(Embedded(c))
  {
    LinesApart(c.title, c.body);
  }

  lemma {:induction false} NamesBounded(segments: seq<Segment>)
    ensures |Names(segments)| <= |segments|
  {
    if segments == [] {
      assert Names(segments) == {};
    } else {
      NamesBounded(segments[1..]);
      assert Names(segments) == {segments[0].file} + Names(segments[1..]);
    }
  }

  lemma LiveBelowWritten(f: File)
    requires Sound(f)
    ensures |LiveLanes(f)| <= NumVectors(f)
  {
    assert LiveLanes(f) <= Below(NumVectors(f));
    SubsetSize(LiveLanes(f), Below(NumVectors(f)));
  }

  /** An agreeing state whose hashes are current never trips the integrity checks. */
  lemma PreflightPasses(e: Embedder, m: Manifest, disk: Disk, given: Chunks, stale: set<Place>)
    requires Agrees(e, m, disk, given, stale, map[]) && HashesOk(m.segments, disk)
    ensures Preflight(m, disk)
  {
    forall s | s in m.segments ensures s.live >= 0 && s.dead >= 0 {
      assert SegmentOk(s, disk, 0);
      LiveBelowWritten(disk[s.file]);
    }
  }

  lemma HeldLive(f: File, vectors: seq<Vec>, ids: seq<int>)
    requires |vectors| == |ids| && Holds(f, vectors, ids) && forall i :: 0 <= i < |ids| ==> ids[i] >= 0
    ensures Sound(f) && LiveLanes(f) == Below(|ids|) && |LiveLanes(f)| == |ids|
  {
    assert forall i: nat :: i < |ids| ==> LaneId(f, i) == ids[i];
    forall i: nat | i < NumLanes(f) ensures i in LiveLanes(f) <==> i < |ids| {
    }
    assert LiveLanes(f) == Below(|ids|);
  }

  // ------------------------------------------------------------ what a sync does to the maps

  /** by_date: the last chunk of each date. */
  function ByDate(daily: seq<Chunk>): map<Date, Chunk> {
    if daily == [] then map[]
    else ByDate(daily[..|daily| - 1])[daily[|daily| - 1].date := daily[|daily| - 1]]
  }

  /** No later chunk of daily has the date of this one. */
  ghost predicate LastOf(daily: seq<Chunk>, i: int) {
    0 <= i < |daily| && forall j :: i < j < |daily| ==> daily[j].date != daily[i].date
  }

  lemma {:induction false} ByDateKeys(daily: seq<Chunk>, d: Date)
    ensures d in ByDate(daily) <==> exists i :: 0 <= i < |daily| && daily[i].date == d
  {
    if daily != [] {
      var n := |daily| - 1;
      ByDateKeys(daily[..n], d);
      assert daily == daily[..n] + [daily[n]];
      if i :| 0 <= i < |daily| && daily[i].date == d && i < n { assert daily[..n][i].date == d; }
    }
  }

  lemma {:induction false} ByDateLast(daily: seq<Chunk>, i: int)
    requires LastOf(daily, i)
    ensures daily[i].date in ByDate(daily) && ByDate(daily)[daily[i].date] == daily[i]
  {
    var n := |daily| - 1;
    if i < n {
      assert daily[n].date != daily[i].date;
      ByDateLast(daily[..n], i);
    }
  }

  /** Every date of daily is there, under its last chunk, and no other date. */
  lemma ByDateMeaning(daily: seq<Chunk>)
    ensures forall d :: d in ByDate(daily) <==> exists i :: 0 <= i < |daily| && daily[i].date == d
    ensures forall i :: 0 <= i < |daily| && (forall j :: i < j < |daily| ==> daily[j].date != daily[i].date) ==>
              daily[i].date in ByDate(daily) && ByDate(daily)[daily[i].date] == daily[i]
  {
    hide ByDate;
    forall d ensures d in ByDate(daily) <==> exists i :: 0 <= i < |daily| && daily[i].date == d {
      ByDateKeys(daily, d);
    }
    forall i | 0 <= i < |daily| && LastOf(daily, i)
      ensures daily[i].date in ByDate(daily) && ByDate(daily)[daily[i].date] == daily[i]
    {
      ByDateLast(daily, i);
    }
  }

  lemma {:induction false} LastOfDate(daily: seq<Chunk>, d: Date) returns (i: nat)
    requires d in ByDate(daily)
    ensures LastOf(daily, i) && daily[i].date == d && ByDate(daily)[d] == daily[i]
  {
    i := |daily| - 1;
    if daily[i].date != d {
      var n := i;
      i := LastOfDate(daily[..n], d);
    }
  }

  ghost function ChangedDates(e: Embedder, days: map<Date, DayRec>, byDate: map<Date, Chunk>, force: bool): set<Date> {
    set d | d in byDate && (force || d !in days || days[d].contentHash != e.hash(Embedded(byDate[d])))
  }

  /** The dates whose old lane becomes stale. */
  ghost function Replaced(days: map<Date, DayRec>, changed: set<Date>, gone: set<Date>): set<Date> {
    (days.Keys * changed) + gone
  }

  ghost predicate DistinctDates(changed: seq<Chunk>) {
    forall i, j :: 0 <= i < j < |changed| ==> changed[i].date != changed[j].date
  }

  ghost function DatesOf(changed: seq<Chunk>): set<Date> {
    set c | c in changed :: c.date
  }

  ghost function NewIds(start: int, n: nat): (ids: set<int>)
    ensures forall x :: x in ids <==> start <= x < start + n
  {
    if n == 0 then {} else NewIds(start, n - 1) + {start + n - 1}
  }

  ghost function IdsOf(days: map<Date, DayRec>, dates: set<Date>): set<int> {
    set d | d in dates && d in days :: days[d].chunkId
  }

  /** days2 is days with the changed dates pointing into the new segment and
      the gone dates removed. */
  ghost predicate NewDays(e: Embedder, m: Manifest, changed: seq<Chunk>, gone: set<Date>,
                          file: nat, days2: map<Date, DayRec>)
  {
    && DistinctDates(changed)
    && DatesOf(changed) !! gone && gone <= m.days.Keys
    && days2.Keys == (m.days.Keys - gone) + DatesOf(changed)
    && (forall d :: d in m.days && d !in gone && d !in DatesOf(changed) ==> days2[d] == m.days[d])
    && (forall i: nat :: i < |changed| ==>
          changed[i].date in days2 &&
          days2[changed[i].date] == DayRec(m.next + i, file, i, TombOffset(i), e.hash(Embedded(changed[i]))))
  }

  /** given2 is given with the replaced days' ids removed and the new chunks added. */
  ghost predicate NewGiven(m: Manifest, given: Chunks, changed: seq<Chunk>, gone: set<Date>, given2: Chunks) {
    && given2.Keys == (given.Keys - IdsOf(m.days, Replaced(m.days, DatesOf(changed), gone))) + NewIds(m.next, |changed|)
    && (forall x :: x in given && x in given2 && x < m.next ==> given2[x] == given[x])
    && (forall i: nat :: i < |changed| ==> m.next + i in given2 && given2[m.next + i] == changed[i])
  }

  ghost function StalePlaces(days: map<Date, DayRec>, replaced: set<Date>): set<Place> {
    set d | d in replaced && d in days :: (days[d].segment, days[d].index)
  }

  ghost function Vectors(e: Embedder, changed: seq<Chunk>): seq<Vec> {
    seq<Vec>(|changed|, i requires 0 <= i < |changed| => e.embed(Embedded(changed[i])))
  }

  function IdsFrom(start: nat, n: nat): seq<int> {
    seq(n, i => start + i)
  }

  /** The state after the new segment and both maps are written. */
  ghost predicate Appended(e: Embedder, m: Manifest, disk: Disk, changed: seq<Chunk>,
                           file: nat, m2: Manifest, disk2: Disk)
  {
    if changed == [] then m2.next == m.next && m2.segments == m.segments && disk2 == disk
    else
      && file !in Names(m.segments) && 1 <= file <= MAX_SEGMENTS + 1
      && m2.next == m.next + |changed|
      && file in disk2 && disk2 == disk[file := disk2[file]]
      && Holds(disk2[file], Vectors(e, changed), IdsFrom(m.next, |changed|))
      && m2.segments == m.segments + [Segment(file, |changed|, 0, disk2[file])]
  }

  lemma NamesAppended(segments: seq<Segment>, s: Segment)
    ensures Names(segments + [s]) == Names(segments) + {s.file}
  {
    forall x | x in Names(segments) + {s.file} ensures x in Names(segments + [s]) {
      if x == s.file {
        assert s in segments + [s];
      } else {
        var t :| t in segments && t.file == x;
        assert t in segments + [s];
      }
    }
  }

  lemma AppendedSegments(e: Embedder, m: Manifest, disk: Disk, changed: seq<Chunk>,
                         file: nat, m2: Manifest, disk2: Disk)
    requires SegmentsOk(m.segments, disk, map[]) && HashesOk(m.segments, disk)
    requires Appended(e, m, disk, changed, file, m2, disk2)
    ensures SegmentsOk(m2.segments, disk2, map[]) && HashesOk(m2.segments, disk2)
    ensures Names(m2.segments) == Names(m.segments) + if changed == [] then {} else {file}
  {
    if changed != [] {
      hide LaneId, LaneVec, NumVectors, Padded, TombOffset, Holds, Sound, LiveLanes;
      AppendedFile(e, m, disk2, changed, file);
      NamesAppended(m.segments, Segment(file, |changed|, 0, disk2[file]));
      forall s | s in m2.segments ensures SegmentOk(s, disk2, 0) && s.payload == disk2[s.file] {
        if s in m.segments {
          assert SegmentOk(s, disk, 0);
          assert s.file in Names(m.segments);
        }
      }
      assert forall s :: s in m.segments ==> s.file in Names(m.segments);
    }
  }

  lemma AppendedFile(e: Embedder, m: Manifest, disk2: Disk, changed: seq<Chunk>, file: nat)
    requires file in disk2 && 1 <= file <= MAX_SEGMENTS + 1
    requires Holds(disk2[file], Vectors(e, changed), IdsFrom(m.next, |changed|))
    ensures SegmentOk(Segment(file, |changed|, 0, disk2[file]), disk2, 0)
  {
    HeldLive(disk2[file], Vectors(e, changed), IdsFrom(m.next, |changed|));
  }

  lemma AddedDay(e: Embedder, m: Manifest, disk: Disk, given: Chunks, changed: seq<Chunk>, gone: set<Date>,
                 file: nat, m2: Manifest, disk2: Disk, given2: Chunks, i: nat)
    requires Appended(e, m, disk, changed, file, m2, disk2)
    requires NewDays(e, m, changed, gone, file, m2.days) && NewGiven(m, given, changed, gone, given2)
    requires Names(m2.segments) == Names(m.segments) + if changed == [] then {} else {file}
    requires i < |changed|
    ensures DayOk(e, changed[i].date, m2.days[changed[i].date], Names(m2.segments), disk2, given2, m2.next)
    ensures m2.days[changed[i].date].chunkId == m.next + i
  {
    assert Vectors(e, changed)[i] == e.embed(Embedded(changed[i]));
    assert IdsFrom(m.next, |changed|)[i] == m.next + i;
  }

  lemma KeptDay(e: Embedder, m: Manifest, disk: Disk, given: Chunks, changed: seq<Chunk>, gone: set<Date>,
                file: nat, m2: Manifest, disk2: Disk, given2: Chunks, d: Date)
    requires DaysOk(e, m, disk, given)
    requires Appended(e, m, disk, changed, file, m2, disk2)
    requires NewDays(e, m, changed, gone, file, m2.days) && NewGiven(m, given, changed, gone, given2)
    requires Names(m2.segments) == Names(m.segments) + if changed == [] then {} else {file}
    requires d in m2.days && d !in DatesOf(changed)
    ensures d in m.days && m2.days[d] == m.days[d] && m.days[d].chunkId < m.next
    ensures DayOk(e, d, m2.days[d], Names(m2.segments), disk2, given2, m2.next)
  {
    var rec := m.days[d];
    assert DayOk(e, d, rec, Names(m.segments), disk, given, m.next);
    KeptId(m.days, Replaced(m.days, DatesOf(changed), gone), d);
    assert rec.chunkId in given2 && given2[rec.chunkId] == given[rec.chunkId];
    assert rec.segment in disk2 && disk2[rec.segment] == disk[rec.segment];
  }

  lemma RewrittenDays(e: Embedder, m: Manifest, disk: Disk, given: Chunks, changed: seq<Chunk>, gone: set<Date>,
                      file: nat, m2: Manifest, disk2: Disk, given2: Chunks)
    requires DaysOk(e, m, disk, given)
    requires Appended(e, m, disk, changed, file, m2, disk2)
    requires NewDays(e, m, changed, gone, file, m2.days) && NewGiven(m, given, changed, gone, given2)
    requires Names(m2.segments) == Names(m.segments) + if changed == [] then {} else {file}
    ensures DaysOk(e, m2, disk2, given2)
  {
    forall d | d in m2.days ensures DayOk(e, d, m2.days[d], Names(m2.segments), disk2, given2, m2.next) {
      if d in DatesOf(changed) {
        var i :| 0 <= i < |changed| && changed[i].date == d;
        AddedDay(e, m, disk, given, changed, gone, file, m2, disk2, given2, i);
      } else {
        KeptDay(e, m, disk, given, changed, gone, file, m2, disk2, given2, d);
      }
    }
    forall a, b | a in m2.days && b in m2.days && m2.days[a].chunkId == m2.days[b].chunkId ensures a == b {
      SameIdSameDay(e, m, disk, given, changed, gone, file, m2, disk2, given2, a, b);
    }
  }

  lemma SameIdSameDay(e: Embedder, m: Manifest, disk: Disk, given: Chunks, changed: seq<Chunk>, gone: set<Date>,
                      file: nat, m2: Manifest, disk2: Disk, given2: Chunks, a: Date, b: Date)
    requires DaysOk(e, m, disk, given)
    requires Appended(e, m, disk, changed, file, m2, disk2)
    requires NewDays(e, m, changed, gone, file, m2.days) && NewGiven(m, given, changed, gone, given2)
    requires Names(m2.segments) == Names(m.segments) + if changed == [] then {} else {file}
    requires a in m2.days && b in m2.days && m2.days[a].chunkId == m2.days[b].chunkId
    ensures a == b
  {
    var i, j := -1, -1;
    if a in DatesOf(changed) {
      i :| 0 <= i < |changed| && changed[i].date == a;
    } else {
      KeptDay(e, m, disk, given, changed, gone, file, m2, disk2, given2, a);
    }
    if b in DatesOf(changed) {
      j :| 0 <= j < |changed| && changed[j].date == b;
    } else {
      KeptDay(e, m, disk, given, changed, gone, file, m2, disk2, given2, b);
    }
    assert i == j;
  }

  /** The id of a day that is kept is not among the ids removed. */
  lemma KeptId(days: map<Date, DayRec>, replaced: set<Date>, d: Date)
    requires UniqueIds(days) && d in days && d !in replaced && replaced <= days.Keys
    ensures days[d].chunkId !in IdsOf(days, replaced)
  {
  }

  lemma IdHasDay(e: Embedder, m: Manifest, given: Chunks, changed: seq<Chunk>, gone: set<Date>,
                     file: nat, days2: map<Date, DayRec>, given2: Chunks, x: int) returns (d: Date)
    requires given.Keys == ChunkIds(m.days)
    requires NewDays(e, m, changed, gone, file, days2) && NewGiven(m, given, changed, gone, given2)
    requires x in given2
    ensures d in days2 && days2[d].chunkId == x
  {
    if x in NewIds(m.next, |changed|) {
      var i := x - m.next;
      d := changed[i].date;
    } else {
      assert x in given.Keys;
      d :| d in m.days && m.days[d].chunkId == x;
      assert d !in Replaced(m.days, DatesOf(changed), gone);
    }
  }

  lemma DayHasId(e: Embedder, m: Manifest, given: Chunks, changed: seq<Chunk>, gone: set<Date>,
                     file: nat, days2: map<Date, DayRec>, given2: Chunks, d: Date)
    requires UniqueIds(m.days) && given.Keys == ChunkIds(m.days)
    requires NewDays(e, m, changed, gone, file, days2) && NewGiven(m, given, changed, gone, given2)
    requires d in days2
    ensures days2[d].chunkId in given2.Keys
  {
    if d in DatesOf(changed) {
      var i :| 0 <= i < |changed| && changed[i].date == d;
      assert days2[d].chunkId == m.next + i;
    } else {
      KeptId(m.days, Replaced(m.days, DatesOf(changed), gone), d);
      assert m.days[d].chunkId in ChunkIds(m.days);
      assert m.days[d].chunkId in given.Keys;
    }
  }

  lemma RewrittenGiven(e: Embedder, m: Manifest, given: Chunks, changed: seq<Chunk>, gone: set<Date>,
                      file: nat, days2: map<Date, DayRec>, given2: Chunks)
    requires UniqueIds(m.days) && given.Keys == ChunkIds(m.days)
    requires NewDays(e, m, changed, gone, file, days2) && NewGiven(m, given, changed, gone, given2)
    ensures given2.Keys == ChunkIds(days2)
  {
    forall x | x in given2.Keys ensures x in ChunkIds(days2) {
      var d := IdHasDay(e, m, given, changed, gone, file, days2, given2, x);
    }
    forall x | x in ChunkIds(days2) ensures x in given2.Keys {
      var d :| d in days2 && days2[d].chunkId == x;
      DayHasId(e, m, given, changed, gone, file, days2, given2, d);
    }
  }

  lemma LiveLaneOwned(e: Embedder, m: Manifest, disk: Disk, changed: seq<Chunk>, gone: set<Date>,
                      file: nat, m2: Manifest, disk2: Disk, p: Place)
    requires Owned(Names(m.segments), disk, m.days, {})
    requires Appended(e, m, disk, changed, file, m2, disk2)
    requires NewDays(e, m, changed, gone, file, m2.days)
    requires Names(m2.segments) == Names(m.segments) + if changed == [] then {} else {file}
    requires p.0 in Names(m2.segments) && LiveAt(disk2, p)
    ensures p in Places(m2.days) || p in StalePlaces(m.days, Replaced(m.days, DatesOf(changed), gone))
  {
    if changed != [] && p.0 == file {
      HeldLive(disk2[file], Vectors(e, changed), IdsFrom(m.next, |changed|));
      assert p.1 in LiveLanes(disk2[file]);
      assert changed[p.1].date in m2.days;
    } else {
      assert LiveAt(disk, p);
      var d :| d in m.days && (m.days[d].segment, m.days[d].index) == p;
      if d !in Replaced(m.days, DatesOf(changed), gone) {
        assert m2.days[d] == m.days[d];
      }
    }
  }

  lemma StaleLaneFree(e: Embedder, m: Manifest, disk: Disk, given: Chunks, changed: seq<Chunk>, gone: set<Date>,
                      file: nat, m2: Manifest, disk2: Disk, r: Date)
    requires DaysOk(e, m, disk, given) && r in Replaced(m.days, DatesOf(changed), gone)
    requires Appended(e, m, disk, changed, file, m2, disk2)
    requires NewDays(e, m, changed, gone, file, m2.days)
    ensures var p := (m.days[r].segment, m.days[r].index);
            p !in Places(m2.days) && p.0 in Names(m.segments) && LiveAt(disk2, p)
  {
    var p := (m.days[r].segment, m.days[r].index);
    assert DayOk(e, r, m.days[r], Names(m.segments), disk, given, m.next);
    forall d | d in m2.days ensures (m2.days[d].segment, m2.days[d].index) != p {
      if d in DatesOf(changed) {
        var i :| 0 <= i < |changed| && changed[i].date == d;
        assert m2.days[d].segment == file;
      } else {
        assert m2.days[d] == m.days[d];
        DistinctDaysDistinctPlaces(e, m, disk, given, d, r);
      }
    }
  }

  lemma DistinctDaysDistinctPlaces(e: Embedder, m: Manifest, disk: Disk, given: Chunks, a: Date, b: Date)
    requires DaysOk(e, m, disk, given) && a in m.days && b in m.days && a != b
    ensures (m.days[a].segment, m.days[a].index) != (m.days[b].segment, m.days[b].index)
  {
    assert DayOk(e, a, m.days[a], Names(m.segments), disk, given, m.next);
    assert DayOk(e, b, m.days[b], Names(m.segments), disk, given, m.next);
  }

  lemma RewrittenPlaces(e: Embedder, m: Manifest, disk: Disk, given: Chunks, changed: seq<Chunk>, gone: set<Date>,
                        file: nat, m2: Manifest, disk2: Disk, stale: set<Place>)
    requires DaysOk(e, m, disk, given) && Owned(Names(m.segments), disk, m.days, {})
    requires Appended(e, m, disk, changed, file, m2, disk2)
    requires NewDays(e, m, changed, gone, file, m2.days)
    requires Names(m2.segments) == Names(m.segments) + if changed == [] then {} else {file}
    requires stale == StalePlaces(m.days, Replaced(m.days, DatesOf(changed), gone))
    ensures Owned(Names(m2.segments), disk2, m2.days, stale)
    ensures stale !! Places(m2.days)
    ensures forall p: Place :: p in stale ==> p.0 in Names(m2.segments) && LiveAt(disk2, p)
  {
    hide DaysOk, Appended, NewDays, LiveAt, Places;
    forall p: Place | p.0 in Names(m2.segments) && LiveAt(disk2, p) ensures p in Places(m2.days) || p in stale {
      LiveLaneOwned(e, m, disk, changed, gone, file, m2, disk2, p);
    }
    forall p | p in stale ensures p !in Places(m2.days) && p.0 in Names(m2.segments) && LiveAt(disk2, p) {
      var r :| r in Replaced(m.days, DatesOf(changed), gone) && r in m.days
          && p == (m.days[r].segment, m.days[r].index);
      StaleLaneFree(e, m, disk, given, changed, gone, file, m2, disk2, r);
    }
  }

  /** Writing the new segment, then both maps, leaves only the replaced lanes to tombstone. */
  lemma RewrittenAgrees(e: Embedder, m: Manifest, disk: Disk, given: Chunks, changed: seq<Chunk>, gone: set<Date>,
                        file: nat, m2: Manifest, disk2: Disk, given2: Chunks, stale: set<Place>)
    requires Agrees(e, m, disk, given, {}, map[]) && HashesOk(m.segments, disk)
    requires Appended(e, m, disk, changed, file, m2, disk2)
    requires NewDays(e, m, changed, gone, file, m2.days) && NewGiven(m, given, changed, gone, given2)
    requires stale == StalePlaces(m.days, Replaced(m.days, DatesOf(changed), gone))
    ensures Agrees(e, m2, disk2, given2, stale, map[]) && HashesOk(m2.segments, disk2)
  {
    AppendedSegments(e, m, disk, changed, file, m2, disk2);
    RewrittenDays(e, m, disk, given, changed, gone, file, m2, disk2, given2);
    RewrittenGiven(e, m, given, changed, gone, file, m2.days, given2);
    RewrittenPlaces(e, m, disk, given, changed, gone, file, m2, disk2, stale);
  }

  // ------------------------------------------------------------ tombstones and counts

  lemma TombstonedSegment(f: File, i: nat)
    requires Sound(f) && i in LiveLanes(f)
    ensures TombOffset(i) % 4 == 0 && TombOffset(i) / 4 < |f|
    ensures var g := Tombstoned(f, TombOffset(i));
            Sound(g) && NumVectors(g) == NumVectors(f) && |LiveLanes(g)| == |LiveLanes(f)| - 1
  {
    TombstoneOneLane(f, i);
    var g := Tombstoned(f, TombOffset(i));
    assert LiveLanes(g) == LiveLanes(f) - {i};
  }

  lemma TombstonedSegments(segments: seq<Segment>, disk: Disk, uncounted: map<nat, nat>, p: Place, disk2: Disk)
    requires SegmentsOk(segments, disk, uncounted) && LiveAt(disk, p)
    requires TombOffset(p.1) % 4 == 0 && TombOffset(p.1) / 4 < |disk[p.0]|
    requires disk2 == disk[p.0 := Tombstoned(disk[p.0], TombOffset(p.1))]
    ensures SegmentsOk(segments, disk2, uncounted[p.0 := Get(uncounted, p.0) + 1])
  {
    hide LaneId, LaneVec, NumVectors, Tombstoned, Padded, TombOffset;
    var uncounted2 := uncounted[p.0 := Get(uncounted, p.0) + 1];
    forall s | s in segments ensures SegmentOk(s, disk2, Get(uncounted2, s.file)) {
      assert SegmentOk(s, disk, Get(uncounted, s.file));
      if s.file == p.0 {
        TombstonedSegment(disk[p.0], p.1);
      }
    }
  }

  lemma TombstonedDays(e: Embedder, m: Manifest, disk: Disk, given: Chunks, p: Place, disk2: Disk)
    requires DaysOk(e, m, disk, given) && LiveAt(disk, p) && p !in Places(m.days)
    requires TombOffset(p.1) % 4 == 0 && TombOffset(p.1) / 4 < |disk[p.0]|
    requires disk2 == disk[p.0 := Tombstoned(disk[p.0], TombOffset(p.1))]
    ensures DaysOk(e, m, disk2, given)
  {
    hide LaneId, LaneVec, NumVectors, Tombstoned, Padded, TombOffset;
    TombstoneOneLane(disk[p.0], p.1);
    forall d | d in m.days ensures DayOk(e, d, m.days[d], Names(m.segments), disk2, given, m.next) {
      assert DayOk(e, d, m.days[d], Names(m.segments), disk, given, m.next);
      assert (m.days[d].segment, m.days[d].index) in Places(m.days);
    }
  }

  /** Tombstoning one stale lane. */
  lemma TombstoneAgrees(e: Embedder, m: Manifest, disk: Disk, given: Chunks, stale: set<Place>,
                        uncounted: map<nat, nat>, p: Place, disk2: Disk)
    requires Agrees(e, m, disk, given, stale, uncounted) && p in stale
    requires p.0 in disk && TombOffset(p.1) % 4 == 0 && TombOffset(p.1) / 4 < |disk[p.0]|
    requires disk2 == disk[p.0 := Tombstoned(disk[p.0], TombOffset(p.1))]
    ensures Agrees(e, m, disk2, given, stale - {p}, uncounted[p.0 := Get(uncounted, p.0) + 1])
  {
    hide LaneId, LaneVec, NumVectors, Tombstoned, Padded, TombOffset, SegmentsOk, DaysOk;
    assert LiveAt(disk, p);
    TombstonedSegments(m.segments, disk, uncounted, p, disk2);
    TombstonedDays(e, m, disk, given, p, disk2);
    TombstoneOneLane(disk[p.0], p.1);
    forall q: Place | q.0 in Names(m.segments) && LiveAt(disk2, q) ensures q in Places(m.days) || q in stale - {p} {
      assert LiveAt(disk, q);
    }
    forall q | q in stale - {p} ensures q.0 in Names(m.segments) && LiveAt(disk2, q) {
      assert LiveAt(disk, q);
    }
  }

  /** The records with the dead counts bumped and the hashes taken again. */
  ghost predicate Counted(before: seq<Segment>, after: seq<Segment>, disk: Disk, bump: map<nat, nat>) {
    && |after| == |before|
    && forall i :: 0 <= i < |before| ==>
         if before[i].file in bump then
           && before[i].file in disk
           && after[i] == Segment(before[i].file, before[i].live - bump[before[i].file],
                                  before[i].dead + bump[before[i].file], disk[before[i].file])
         else after[i] == before[i]
  }

  lemma CountedAgrees(e: Embedder, m: Manifest, disk: Disk, given: Chunks, bump: map<nat, nat>, m2: Manifest)
    requires Agrees(e, m, disk, given, {}, bump)
    requires forall s :: s in m.segments && s.file !in bump ==> s.payload == disk[s.file]
    requires Counted(m.segments, m2.segments, disk, bump) && m2.days == m.days && m2.next == m.next
    ensures Agrees(e, m2, disk, given, {}, map[]) && HashesOk(m2.segments, disk)
  {
    hide LaneId, LaneVec, NumLanes, NumVectors, Sound, LiveLanes, LiveAt, DayOk, TombOffset;
    forall s | s in m2.segments ensures SegmentOk(s, disk, 0) && s.payload == disk[s.file] {
      var i :| 0 <= i < |m2.segments| && m2.segments[i] == s;
      assert SegmentOk(m.segments[i], disk, Get(bump, s.file));
    }
    forall x ensures x in Names(m2.segments) <==> x in Names(m.segments) {
      if x in Names(m.segments) {
        var i :| 0 <= i < |m.segments| && m.segments[i].file == x;
        assert m2.segments[i] in m2.segments && m2.segments[i].file == x;
      }
    }
    assert Names(m2.segments) == Names(m.segments);
  }

  // ------------------------------------------------------------ compaction

  /** Every day once, in some order. */
  ghost predicate Lists(dates: seq<Date>, of: set<Date>) {
    && (forall i, j :: 0 <= i < j < |dates| ==> dates[i] != dates[j])
    && (forall d :: d in of <==> d in dates)
  }

  ghost function DayVec(disk: Disk, rec: DayRec): Vec
    requires OwnsLane(disk, rec)
  {
    LaneVec(disk[rec.segment], rec.index)
  }

  ghost function MovedVectors(m: Manifest, disk: Disk, dates: seq<Date>): seq<Vec>
    requires forall i :: 0 <= i < |dates| ==> dates[i] in m.days && OwnsLane(disk, m.days[dates[i]])
  {
    seq<Vec>(|dates|, i requires 0 <= i < |dates| => DayVec(disk, m.days[dates[i]]))
  }

  ghost function MovedIds(m: Manifest, dates: seq<Date>): seq<int>
    requires forall i :: 0 <= i < |dates| ==> dates[i] in m.days
  {
    seq(|dates|, i requires 0 <= i < |dates| => m.days[dates[i]].chunkId)
  }

  ghost predicate Repacked(m: Manifest, disk: Disk, dates: seq<Date>, file: nat, m2: Manifest, disk2: Disk) {
    && Lists(dates, m.days.Keys)
    && (forall i :: 0 <= i < |dates| ==> dates[i] in m.days && OwnsLane(disk, m.days[dates[i]]))
    && file in disk2 && 1 <= file <= MAX_SEGMENTS + 2
    && Holds(disk2[file], MovedVectors(m, disk, dates), MovedIds(m, dates))
    && m2.next == m.next && m2.segments == [Segment(file, |dates|, 0, disk2[file])]
    && m2.days.Keys == m.days.Keys
    && (forall i: nat :: i < |dates| ==>
          m2.days[dates[i]] ==
          m.days[dates[i]].(segment := file, index := i, tombOffset := TombOffset(i)))
  }

  /** The same dates, ids and content hashes, wherever their lanes are. */
  ghost predicate SameContent(a: map<Date, DayRec>, b: map<Date, DayRec>) {
    && a.Keys == b.Keys
    && forall d :: d in a ==> a[d].chunkId == b[d].chunkId && a[d].contentHash == b[d].contentHash
  }

  lemma RepackedDay(e: Embedder, m: Manifest, disk: Disk, given: Chunks, dates: seq<Date>, file: nat,
                    m2: Manifest, disk2: Disk, d: Date) returns (i: nat)
    requires DaysOk(e, m, disk, given) && Repacked(m, disk, dates, file, m2, disk2) && d in m.days
    ensures i < |dates| && dates[i] == d
    ensures DayOk(e, d, m2.days[d], {file}, disk2, given, m2.next)
    ensures m2.days[d].chunkId == m.days[d].chunkId && m2.days[d].contentHash == m.days[d].contentHash
  {
    assert d in m.days.Keys;
    i :| 0 <= i < |dates| && dates[i] == d;
    assert DayOk(e, d, m.days[d], Names(m.segments), disk, given, m.next);
  }

  lemma SameContentIds(a: map<Date, DayRec>, b: map<Date, DayRec>)
    requires SameContent(a, b)
    ensures ChunkIds(a) == ChunkIds(b) && (UniqueIds(a) ==> UniqueIds(b))
  {
  }

  lemma RepackedSegments(e: Embedder, m: Manifest, disk: Disk, given: Chunks, dates: seq<Date>, file: nat,
                         m2: Manifest, disk2: Disk)
    requires DaysOk(e, m, disk, given)
    requires Repacked(m, disk, dates, file, m2, disk2)
    ensures SegmentsOk(m2.segments, disk2, map[]) && HashesOk(m2.segments, disk2)
    ensures Owned({file}, disk2, m2.days, {})
  {
    forall i | 0 <= i < |dates| ensures MovedIds(m, dates)[i] >= 0 {
      assert dates[i] in m.days.Keys;
      assert DayOk(e, dates[i], m.days[dates[i]], Names(m.segments), disk, given, m.next);
    }
    HeldLive(disk2[file], MovedVectors(m, disk, dates), MovedIds(m, dates));
    forall p: Place | p.0 in {file} && LiveAt(disk2, p) ensures p in Places(m2.days) {
      assert p.1 in LiveLanes(disk2[file]);
      assert dates[p.1] in m2.days.Keys;
    }
  }

  /** Compaction moves every day's vector, id and hash to one new file. */
  lemma RepackedAgrees(e: Embedder, m: Manifest, disk: Disk, given: Chunks, dates: seq<Date>, file: nat,
                       m2: Manifest, disk2: Disk)
    requires Agrees(e, m, disk, given, {}, map[])
    requires Repacked(m, disk, dates, file, m2, disk2)
    ensures Agrees(e, m2, disk2, given, {}, map[]) && HashesOk(m2.segments, disk2)
    ensures SameContent(m.days, m2.days)
  {
    assert Names(m2.segments) == {file};
    forall d | d in m2.days
      ensures DayOk(e, d, m2.days[d], {file}, disk2, given, m2.next)
      ensures m2.days[d].chunkId == m.days[d].chunkId && m2.days[d].contentHash == m.days[d].contentHash
    {
      var _ := RepackedDay(e, m, disk, given, dates, file, m2, disk2, d);
    }
    SameContentIds(m.days, m2.days);
    RepackedSegments(e, m, disk, given, dates, file, m2, disk2);
  }

  // ------------------------------------------------------------ what agreement means lane by lane

  /** With nothing stale, each lane of the manifest's segments is -1 or is the
      lane of exactly one day, ids are unique over all lanes and below
      next_chunk_id, and the metadata ids are exactly the live ids. */
  lemma LanesAreDays(e: Embedder, m: Manifest, disk: Disk, given: Chunks, p: Place, q: Place)
    requires Agrees(e, m, disk, given, {}, map[])
    requires p.0 in Names(m.segments) && q.0 in Names(m.segments)
    requires forall s :: s in m.segments ==> s.file in disk && WellFormed(disk[s.file])
    requires p.1 < NumLanes(disk[p.0]) && q.1 < NumLanes(disk[q.0])
    ensures LaneId(disk[p.0], p.1) == TOMB ||
            exists d :: d in m.days && (m.days[d].segment, m.days[d].index) == p
                        && m.days[d].chunkId == LaneId(disk[p.0], p.1) < m.next
    ensures LaneId(disk[p.0], p.1) == LaneId(disk[q.0], q.1) != TOMB ==> p == q
    ensures LaneId(disk[p.0], p.1) != TOMB ==> LaneId(disk[p.0], p.1) in given && LaneId(disk[p.0], p.1) in Saved(given)
    ensures Saved(given).Keys == ChunkIds(m.days)
  {
    LiveHasDay(e, m, disk, given, p);
    LiveHasDay(e, m, disk, given, q);
  }

  lemma LiveHasDay(e: Embedder, m: Manifest, disk: Disk, given: Chunks, p: Place)
    requires Agrees(e, m, disk, given, {}, map[]) && p.0 in Names(m.segments)
    requires p.0 in disk && WellFormed(disk[p.0]) && p.1 < NumLanes(disk[p.0])
    ensures LaneId(disk[p.0], p.1) == TOMB || LiveAt(disk, p)
    ensures LiveAt(disk, p) ==>
              exists d :: d in m.days && (m.days[d].segment, m.days[d].index) == p
                          && m.days[d].chunkId == LaneId(disk[p.0], p.1) < m.next && m.days[d].chunkId in given
  {
    var s :| s in m.segments && s.file == p.0;
    assert SegmentOk(s, disk, 0);
    if LiveAt(disk, p) {
      assert p in Places(m.days);
      var d :| d in m.days && (m.days[d].segment, m.days[d].index) == p;
      assert DayOk(e, d, m.days[d], Names(m.segments), disk, given, m.next);
    }
  }
}
