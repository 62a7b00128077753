/** sync_diary_index_lsm and maybe_compact of lsm_index.py, acting on the
    saved manifest, the saved metadata and the segment files. */
module LsmStore {
  import opened Common
  import opened AosoaFile
  import opened LsmIndex

  const DEAD_RATIO := 0.5

  class Index {
    const e: Embedder
    var manifest: Manifest
    var meta: Chunks
    /** What was embedded under each id that metadata still has. */
    ghost var given: Chunks
    var disk: Disk

    ghost predicate Valid()
      reads this
    {
      && Agrees(e, manifest, disk, given, {}, map[])
      && HashesOk(manifest.segments, disk)
      && |manifest.segments| <= MAX_SEGMENTS
      && meta == Saved(given)
    }

    /** The empty manifest that the first sync saves. */
    constructor (e: Embedder)
      ensures Valid() && manifest == Manifest(0, [], map[]) && this.e == e
    {
      this.e := e;
      manifest, meta, given, disk := Manifest(0, [], map[]), map[], map[], map[];
    }

    /** _next_segment_name: the least number no segment uses. */
    static method NextSegmentName(segments: seq<Segment>) returns (n: nat)
      ensures n !in Names(segments) && 1 <= n <= |segments| + 1
      ensures forall k :: 1 <= k < n ==> k in Names(segments)
    {
      n := 1;
      ghost var below: set<nat> := {};
      while exists s :: s in segments && s.file == n
        invariant n >= 1 && |below| == n - 1 && below <= Names(segments)
        invariant forall k :: k in below <==> 1 <= k < n
        invariant n - 1 <= |segments|
        decreases |segments| + 1 - n
      {
        below := below + {n};
        n := n + 1;
        NamesBounded(segments);
        SubsetSize(below, Names(segments));
      }
      assert forall k :: 1 <= k < n ==> k in below;
    }

    /** by_date, with its keys in insertion order. */
    static method LastPerDate(daily: seq<Chunk>) returns (order: seq<Date>, byDate: map<Date, Chunk>)
      ensures byDate == ByDate(daily) && Lists(order, byDate.Keys)
      ensures forall d :: d in byDate ==> byDate[d].date == d
      ensures forall d :: d in byDate <==> exists i :: 0 <= i < |daily| && daily[i].date == d
      ensures forall i :: LastOf(daily, i) ==> byDate[daily[i].date] == daily[i]
    {
      order, byDate := [], map[];
      var i := 0;
      while i < |daily|
        invariant 0 <= i <= |daily| && byDate == ByDate(daily[..i]) && Lists(order, byDate.Keys)
        invariant forall d :: d in byDate ==> byDate[d].date == d
      {
        assert daily[..i + 1][..i] == daily[..i];
        if daily[i].date !in byDate {
          order := order + [daily[i].date];
        }
        byDate := byDate[daily[i].date := daily[i]];
        i := i + 1;
      }
      assert daily[..i] == daily;
      ByDateMeaning(daily);
    }

    /** The chunks to embed: forced, new, or with another content hash. */
    method FindChanged(days: map<Date, DayRec>, order: seq<Date>, byDate: map<Date, Chunk>, force: bool)
      returns (changed: seq<Chunk>)
      requires Lists(order, byDate.Keys) && forall d :: d in byDate ==> byDate[d].date == d
      ensures DistinctDates(changed) && DatesOf(changed) == ChangedDates(e, days, byDate, force)
      ensures forall c :: c in changed ==> c.date in byDate && byDate[c.date] == c
    {
      changed := [];
      var i := 0;
      while i < |order|
        invariant 0 <= i <= |order| && DistinctDates(changed)
        invariant forall c :: c in changed ==> c.date in order[..i] && c.date in byDate && byDate[c.date] == c
        invariant forall d :: d in order[..i] && d in ChangedDates(e, days, byDate, force) ==> byDate[d] in changed
        invariant forall c :: c in changed ==> c.date in ChangedDates(e, days, byDate, force)
      {
        var d := order[i];
        assert d in byDate.Keys;
        var c := byDate[d];
        if force || d !in days || days[d].contentHash != e.hash(Embedded(c)) {
          changed := changed + [c];
        }
        i := i + 1;
      }
    }

    /** What the two stale-collecting loops keep: one record per date of replaced, in
        order, and their ids out of the metadata. */
    static ghost predicate Collected(days: map<Date, DayRec>, replaced: set<Date>, stale: seq<DayRec>,
                                     dates: seq<Date>, chunks0: Chunks, chunks1: Chunks)
    {
      && |dates| == |stale| && Lists(dates, replaced)
      && (forall i :: 0 <= i < |stale| ==> dates[i] in days && stale[i] == days[dates[i]])
      && chunks1 == chunks0 - IdsOf(days, replaced)
    }

    static lemma CollectOne(days: map<Date, DayRec>, replaced: set<Date>, stale: seq<DayRec>, dates: seq<Date>,
                            chunks0: Chunks, chunks1: Chunks, d: Date)
      requires Collected(days, replaced, stale, dates, chunks0, chunks1) && d in days && d !in replaced
      ensures Collected(days, replaced + {d}, stale + [days[d]], dates + [d], chunks0, chunks1 - {days[d].chunkId})
    {
      ListsExtended(dates, replaced, d);
      assert IdsOf(days, replaced + {d}) == IdsOf(days, replaced) + {days[d].chunkId};
    }

    /** The loop over changed days: the old record, if any, becomes stale and
        its metadata entry is dropped. */
    method CollectChanged(days: map<Date, DayRec>, changed: seq<Chunk>, chunks0: Chunks)
      returns (stale: seq<DayRec>, chunks1: Chunks, ghost dates: seq<Date>)
      requires DistinctDates(changed)
      ensures Collected(days, days.Keys * DatesOf(changed), stale, dates, chunks0, chunks1)
    {
      stale, chunks1, dates := [], chunks0, [];
      var i := 0;
      while i < |changed|
        invariant 0 <= i <= |changed|
        invariant Collected(days, days.Keys * DatesOf(changed[..i]), stale, dates, chunks0, chunks1)
      {
        var d := changed[i].date;
        ghost var before := days.Keys * DatesOf(changed[..i]);
        assert DatesOf(changed[..i + 1]) == DatesOf(changed[..i]) + {d} by {
          assert changed[..i + 1] == changed[..i] + [changed[i]];
        }
        assert d !in DatesOf(changed[..i]);
        if d in days {
          CollectOne(days, before, stale, dates, chunks0, chunks1, d);
          assert days.Keys * DatesOf(changed[..i + 1]) == before + {d};
          stale := stale + [days[d]];
          chunks1 := chunks1 - {days[d].chunkId};
          dates := dates + [d];
        } else {
          assert days.Keys * DatesOf(changed[..i + 1]) == before;
        }
        i := i + 1;
      }
      assert changed[..i] == changed;
    }

    /** The loop over deleted dates. */
    method CollectGone(days: map<Date, DayRec>, gone: seq<Date>, ghost replaced: set<Date>,
                       stale0: seq<DayRec>, ghost dates0: seq<Date>, ghost chunks0: Chunks, chunks1: Chunks)
      returns (stale: seq<DayRec>, chunks2: Chunks, ghost dates: seq<Date>)
      requires Collected(days, replaced, stale0, dates0, chunks0, chunks1)
      requires forall i, j :: 0 <= i < j < |gone| ==> gone[i] != gone[j]
      requires forall d :: d in gone ==> d in days && d !in replaced
      ensures Collected(days, replaced + SetOf(gone), stale, dates, chunks0, chunks2)
    {
      stale, chunks2, dates := stale0, chunks1, dates0;
      assert replaced + SetOf([]) == replaced;
      var i := 0;
      while i < |gone|
        invariant 0 <= i <= |gone|
        invariant Collected(days, replaced + SetOf(gone[..i]), stale, dates, chunks0, chunks2)
      {
        var d := gone[i];
        assert gone[..i + 1] == gone[..i] + [d];
        assert d !in SetOf(gone[..i]);
        CollectOne(days, replaced + SetOf(gone[..i]), stale, dates, chunks0, chunks2, d);
        assert replaced + SetOf(gone[..i + 1]) == replaced + SetOf(gone[..i]) + {d};
        stale := stale + [days[d]];
        chunks2 := chunks2 - {days[d].chunkId};
        dates := dates + [d];
        i := i + 1;
      }
      assert gone[..i] == gone;
    }

    static ghost function SetOf(dates: seq<Date>): set<Date> {
      set d | d in dates
    }

    static lemma ListsExtended(dates: seq<Date>, of: set<Date>, d: Date)
      requires Lists(dates, of) && d !in of
      ensures Lists(dates + [d], of + {d})
    {
      assert d !in dates;
    }

    /** write_segment and the manifest record of the new chunks. */
    method AppendSegment(m: Manifest, changed: seq<Chunk>)
      returns (m2: Manifest, ghost file: nat)
      requires |m.segments| <= MAX_SEGMENTS
      modifies `disk
      ensures Appended(e, m, old(disk), changed, file, m2, disk) && m2.days == m.days
    {
      m2, file := m, 0;
      if changed == [] { return; }
      var name := NextSegmentName(m.segments);
      var vectors := seq<Vec>(|changed|, i requires 0 <= i < |changed| => e.embed(Embedded(changed[i])));
      var f := EncodeWithIds(vectors, IdsFrom(m.next, |changed|));
      assert vectors == Vectors(e, changed);
      disk := disk[name := f];
      file := name;
      m2 := Manifest(m.next + |changed|, m.segments + [Segment(name, |changed|, 0, f)], m.days);
    }

    ghost function EnteredDays(start: nat, file: nat, changed: seq<Chunk>, days: map<Date, DayRec>,
                               n: nat): map<Date, DayRec>
      requires n <= |changed|
    {
      if n == 0 then days
      else EnteredDays(start, file, changed, days, n - 1)
           [changed[n - 1].date :=
              DayRec(start + n - 1, file, n - 1, TombOffset(n - 1), e.hash(Embedded(changed[n - 1])))]
    }

    static ghost function EnteredChunks(start: nat, changed: seq<Chunk>, chunks1: Chunks, n: nat): Chunks
      requires n <= |changed|
    {
      if n == 0 then chunks1 else EnteredChunks(start, changed, chunks1, n - 1)[start + n - 1 := changed[n - 1]]
    }

    lemma {:induction false} EnteredDaysKept(start: nat, file: nat, changed: seq<Chunk>, days: map<Date, DayRec>,
                                             n: nat)
      requires n <= |changed|
      ensures var r := EnteredDays(start, file, changed, days, n);
              && r.Keys == days.Keys + DatesOf(changed[..n])
              && (forall d :: d in days && d !in DatesOf(changed[..n]) ==> r[d] == days[d])
    {
      if n > 0 {
        EnteredDaysKept(start, file, changed, days, n - 1);
        assert changed[..n] == changed[..n - 1] + [changed[n - 1]];
        assert DatesOf(changed[..n]) == DatesOf(changed[..n - 1]) + {changed[n - 1].date};
      } else {
        assert DatesOf(changed[..n]) == {};
      }
    }

    lemma {:induction false} EnteredDaysNew(start: nat, file: nat, changed: seq<Chunk>, days: map<Date, DayRec>,
                                            n: nat, i: nat)
      requires i < n <= |changed| && DistinctDates(changed)
      ensures var r := EnteredDays(start, file, changed, days, n);
              && changed[i].date in r
              && r[changed[i].date] == DayRec(start + i, file, i, TombOffset(i), e.hash(Embedded(changed[i])))
    {
      if i < n - 1 {
        EnteredDaysNew(start, file, changed, days, n - 1, i);
      }
    }

    static lemma {:induction false} EnteredChunksMeaning(start: nat, changed: seq<Chunk>, chunks1: Chunks, n: nat)
      requires n <= |changed| && forall x :: x in chunks1 ==> x < start
      ensures var r := EnteredChunks(start, changed, chunks1, n);
              && r.Keys == chunks1.Keys + NewIds(start, n)
              && (forall x :: x in chunks1 ==> r[x] == chunks1[x])
              && (forall i: nat :: i < n ==> start + i in r && r[start + i] == changed[i])
    {
      if n > 0 {
        EnteredChunksMeaning(start, changed, chunks1, n - 1);
      }
    }

    /** Whether the entries were saved before or not, saving them makes the same of them. */
    static lemma {:induction false} EnteredSaved(start: nat, changed: seq<Chunk>, given: Chunks, meta: Chunks,
                                                 ids: set<int>, n: nat)
      requires n <= |changed| && meta == Saved(given)
      ensures Saved(EnteredChunks(start, changed, meta - ids, n)) ==
              Saved(EnteredChunks(start, changed, given - ids, n))
    {
      hide Stored;
      if n == 0 {
        forall x | x in given ensures Stored(Stored(given[x])) == Stored(given[x]) { StoredTwice(given[x]); }
      } else {
        EnteredSaved(start, changed, given, meta, ids, n - 1);
        SavedPut(EnteredChunks(start, changed, meta - ids, n - 1), start + n - 1, changed[n - 1]);
        SavedPut(EnteredChunks(start, changed, given - ids, n - 1), start + n - 1, changed[n - 1]);
      }
    }

    static lemma SavedPut(chunks: Chunks, x: int, c: Chunk)
      ensures Saved(chunks[x := c]) == Saved(chunks)[x := Stored(c)]
    {
    }

    /** The loop that enters the new chunks into days and metadata. */
    method EnterChunks(start: nat, file: nat, changed: seq<Chunk>, days0: map<Date, DayRec>, chunks1: Chunks)
      returns (days: map<Date, DayRec>, chunks2: Chunks)
      ensures days == EnteredDays(start, file, changed, days0, |changed|)
      ensures chunks2 == EnteredChunks(start, changed, chunks1, |changed|)
    {
      days, chunks2 := days0, chunks1;
      var i := 0;
      while i < |changed|
        invariant 0 <= i <= |changed|
        invariant days == EnteredDays(start, file, changed, days0, i)
        invariant chunks2 == EnteredChunks(start, changed, chunks1, i)
      {
        days := days[changed[i].date := DayRec(start + i, file, i, TombOffset(i), e.hash(Embedded(changed[i])))];
        chunks2 := chunks2[start + i := changed[i]];
        i := i + 1;
      }
    }

    static function PlaceOf(rec: DayRec): Place { (rec.segment, rec.index) }

    static ghost function PlacesFrom(stale: seq<DayRec>, i: nat): set<Place> {
      set j | i <= j < |stale| :: PlaceOf(stale[j])
    }

    static ghost predicate DistinctPlaces(stale: seq<DayRec>) {
      && (forall i, j :: 0 <= i < j < |stale| ==> PlaceOf(stale[i]) != PlaceOf(stale[j]))
      && (forall i :: 0 <= i < |stale| ==> stale[i].tombOffset == TombOffset(stale[i].index))
    }

    /** tombstone, and the segment's dead bump. */
    method TombstoneOne(m: Manifest, rec: DayRec, bump0: map<nat, nat>, ghost stale: set<Place>)
      returns (bump: map<nat, nat>)
      requires Agrees(e, m, disk, given, stale, bump0)
      requires PlaceOf(rec) in stale && rec.tombOffset == TombOffset(rec.index)
      modifies `disk
      ensures Agrees(e, m, disk, given, stale - {PlaceOf(rec)}, bump)
      ensures rec.segment in old(disk) && disk == old(disk)[rec.segment := disk[rec.segment]]
      ensures bump == bump0[rec.segment := Get(bump0, rec.segment) + 1]
    {
      ghost var p := PlaceOf(rec);
      assert LiveAt(disk, p);
      TombstoneOneLane(disk[rec.segment], rec.index);
      ghost var disk0 := disk;
      disk := disk[rec.segment := Tombstoned(disk[rec.segment], rec.tombOffset)];
      bump := bump0[rec.segment := Get(bump0, rec.segment) + 1];
      TombstoneAgrees(e, m, disk0, given, stale, bump0, p, disk);
    }

    /** The tombstone loop, counting per segment. */
    method WriteTombstones(m: Manifest, stale: seq<DayRec>) returns (bump: map<nat, nat>)
      requires Agrees(e, m, disk, given, PlacesFrom(stale, 0), map[]) && HashesOk(m.segments, disk)
      requires DistinctPlaces(stale)
      modifies `disk
      ensures Agrees(e, m, disk, given, {}, bump)
      ensures forall s :: s in m.segments && s.file !in bump ==> s.file in disk && s.payload == disk[s.file]
    {
      bump := map[];
      var i := 0;
      while i < |stale|
        invariant 0 <= i <= |stale|
        invariant Agrees(e, m, disk, given, PlacesFrom(stale, i), bump)
        invariant forall s :: s in m.segments && s.file !in bump ==> s.file in disk && s.payload == disk[s.file]
      {
        assert PlaceOf(stale[i]) in PlacesFrom(stale, i);
        assert PlacesFrom(stale, i + 1) == PlacesFrom(stale, i) - {PlaceOf(stale[i])};
        bump := TombstoneOne(m, stale[i], bump, PlacesFrom(stale, i));
        i := i + 1;
      }
      assert PlacesFrom(stale, i) == {};
    }

    /** live -= bump, dead += bump and the payload hash again, for touched segments. */
    method CountDead(m: Manifest, bump: map<nat, nat>) returns (m2: Manifest)
      requires forall s :: s in m.segments ==> s.file in disk
      ensures Counted(m.segments, m2.segments, disk, bump) && m2.days == m.days && m2.next == m.next
    {
      var segments: seq<Segment> := [];
      var i := 0;
      while i < |m.segments|
        invariant 0 <= i <= |m.segments| && |segments| == i
        invariant Counted(m.segments[..i], segments, disk, bump)
      {
        var s := m.segments[i];
        if s.file in bump {
          s := Segment(s.file, s.live - bump[s.file], s.dead + bump[s.file], disk[s.file]);
        }
        segments := segments + [s];
        i := i + 1;
      }
      assert m.segments[..i] == m.segments;
      m2 := Manifest(m.next, segments, m.days);
    }

    static predicate TooDead(s: Segment, ratio: real) {
      s.dead as real / (if s.live + s.dead > 1 then s.live + s.dead else 1) as real > ratio
    }

    static predicate NeedsCompaction(m: Manifest, maxSegments: nat, ratio: real) {
      |m.segments| > maxSegments || exists s :: s in m.segments && TooDead(s, ratio)
    }

    static lemma MovedExtended(m: Manifest, disk: Disk, dates: seq<Date>, d: Date)
      requires forall i :: 0 <= i < |dates| ==> dates[i] in m.days && OwnsLane(disk, m.days[dates[i]])
      requires d in m.days && OwnsLane(disk, m.days[d])
      ensures var longer := dates + [d];
              && (forall i :: 0 <= i < |longer| ==> longer[i] in m.days && OwnsLane(disk, m.days[longer[i]]))
              && MovedVectors(m, disk, longer) == MovedVectors(m, disk, dates) + [DayVec(disk, m.days[d])]
              && MovedIds(m, longer) == MovedIds(m, dates) + [m.days[d].chunkId]
    {
      hide OwnsLane, DayVec;
    }

    /** The days of one segment, and what they add to the entries. */
    method GatherSegment(m: Manifest, ghost given2: Chunks, s: Segment, dates0: seq<Date>, vectors0: seq<Vec>,
                         ids0: seq<int>)
      returns (dates: seq<Date>, vectors: seq<Vec>, ids: seq<int>)
      requires DaysOk(e, m, disk, given2)
      requires forall i :: 0 <= i < |dates0| ==> dates0[i] in m.days && OwnsLane(disk, m.days[dates0[i]])
      requires forall i, j :: 0 <= i < j < |dates0| ==> dates0[i] != dates0[j]
      requires forall d :: d in dates0 ==> m.days[d].segment != s.file
      requires vectors0 == MovedVectors(m, disk, dates0) && ids0 == MovedIds(m, dates0)
      ensures forall i :: 0 <= i < |dates| ==> dates[i] in m.days && OwnsLane(disk, m.days[dates[i]])
      ensures forall i, j :: 0 <= i < j < |dates| ==> dates[i] != dates[j]
      ensures forall d :: d in dates <==> d in dates0 || (d in m.days && m.days[d].segment == s.file)
      ensures vectors == MovedVectors(m, disk, dates) && ids == MovedIds(m, dates)
    {
      hide MovedVectors, MovedIds, WellFormed, LaneId, TombOffset;
      dates, vectors, ids := dates0, vectors0, ids0;
      var todo := set d | d in m.days && m.days[d].segment == s.file;
      while todo != {}
        invariant forall d :: d in todo ==> d in m.days && m.days[d].segment == s.file && d !in dates
        invariant forall i :: 0 <= i < |dates| ==> dates[i] in m.days && OwnsLane(disk, m.days[dates[i]])
        invariant forall i, j :: 0 <= i < j < |dates| ==> dates[i] != dates[j]
        invariant forall d :: d in dates <==> d in dates0 || (d in m.days && m.days[d].segment == s.file && d !in todo)
        invariant vectors == MovedVectors(m, disk, dates) && ids == MovedIds(m, dates)
      {
        var d :| d in todo;
        var rec := m.days[d];
        assert DayOk(e, d, rec, Names(m.segments), disk, given2, m.next);
        MovedExtended(m, disk, dates, d);
        dates := dates + [d];
        vectors := vectors + [LaneVec(disk[rec.segment], rec.index)];
        ids := ids + [rec.chunkId];
        todo := todo - {d};
      }
    }

    /** The entries of all segments: every day, once. */
    lemma DaysInSegments(m: Manifest)
      requires Agrees(e, m, disk, given, {}, map[])
      ensures forall d :: d in m.days ==> m.days[d].segment in Names(m.segments)
    {
      hide OwnsLane;
      forall d | d in m.days ensures m.days[d].segment in Names(m.segments) {
        assert DayOk(e, d, m.days[d], Names(m.segments), disk, given, m.next);
      }
    }

    static lemma NothingMoved(m: Manifest, disk: Disk)
      ensures MovedVectors(m, disk, []) == [] && MovedIds(m, []) == []
    {
    }

    method GatherAll(m: Manifest) returns (dates: seq<Date>, vectors: seq<Vec>, ids: seq<int>)
      requires Agrees(e, m, disk, given, {}, map[])
      ensures Lists(dates, m.days.Keys)
      ensures forall j :: 0 <= j < |dates| ==> dates[j] in m.days && OwnsLane(disk, m.days[dates[j]])
      ensures vectors == MovedVectors(m, disk, dates) && ids == MovedIds(m, dates)
    {
      hide OwnsLane, Owned, SegmentOk, MovedVectors, MovedIds, DaysOk;
      NothingMoved(m, disk);
      var segs := m.segments;
      dates, vectors, ids := [], [], [];
      var i := 0;
      while i < |segs|
        invariant 0 <= i <= |segs|
        invariant forall j :: 0 <= j < |dates| ==> dates[j] in m.days && OwnsLane(disk, m.days[dates[j]])
        invariant forall j, k :: 0 <= j < k < |dates| ==> dates[j] != dates[k]
        invariant forall d :: d in dates <==> d in m.days && m.days[d].segment in Names(segs[..i])
        invariant vectors == MovedVectors(m, disk, dates) && ids == MovedIds(m, dates)
      {
        assert Names(segs[..i + 1]) == Names(segs[..i]) + {segs[i].file} by {
          assert segs[..i + 1] == segs[..i] + [segs[i]];
        }
        assert segs[i].file !in Names(segs[..i]);
        dates, vectors, ids := GatherSegment(m, given, segs[i], dates, vectors, ids);
        i := i + 1;
      }
      assert segs[..i] == segs;
      DaysInSegments(m);
    }

    /** The rewriting half of maybe_compact: one file with all entries replaces the old ones. */
    method Repack(m: Manifest, dates: seq<Date>, vectors: seq<Vec>, ids: seq<int>)
      returns (m2: Manifest, ghost name: nat)
      requires Lists(dates, m.days.Keys) && |m.segments| <= MAX_SEGMENTS + 1
      requires forall j :: 0 <= j < |dates| ==> dates[j] in m.days && OwnsLane(disk, m.days[dates[j]])
      requires vectors == MovedVectors(m, disk, dates) && ids == MovedIds(m, dates)
      modifies `disk
      ensures Repacked(m, old(disk), dates, name, m2, disk)
    {
      var f := EncodeWithIds(vectors, ids);
      var file := NextSegmentName(m.segments);
      name := file;
      disk := disk[file := f];
      var days := Repoint(m.days, dates, file);
      m2 := Manifest(m.next, [Segment(file, |dates|, 0, f)], days);
      disk := map x | x in disk && x !in Names(m.segments) :: disk[x];
    }

    static lemma CompactionNeeded(m: Manifest, maxSegments: nat, ratio: real)
      ensures NeedsCompaction(m, maxSegments, ratio) <==>
              || |m.segments| > maxSegments
              || exists s :: s in m.segments
                   && s.dead as real / (if s.live + s.dead > 1 then s.live + s.dead else 1) as real > ratio
    {
    }

    static lemma Unmoved(m: Manifest)
      ensures SameContent(m.days, m.days)
    {
    }

    static lemma NothingToMove(m: Manifest, dates: seq<Date>)
      requires Lists(dates, m.days.Keys)
      ensures dates == [] <==> m.days == map[]
    {
      if dates == [] { assert m.days.Keys == {}; } else { assert dates[0] in m.days.Keys; }
    }

    static lemma RepackedShape(m: Manifest, disk: Disk, dates: seq<Date>, file: nat, m2: Manifest, disk2: Disk)
      requires Repacked(m, disk, dates, file, m2, disk2)
      ensures |m2.segments| == 1 && m2.segments[0].dead == 0 && m2.segments[0].live == |m2.days.Keys|
      ensures m2.next == m.next
    {
      hide Holds, OwnsLane;
      ListedCount(dates, m2.days.Keys);
    }

    /** maybe_compact: when it fires, the live lanes are copied to one new file,
        without embedding anything, and the old files are deleted. */
    method MaybeCompact(m: Manifest, maxSegments: nat, ratio: real) returns (m2: Manifest, done: bool)
      requires Agrees(e, m, disk, given, {}, map[]) && HashesOk(m.segments, disk)
      requires |m.segments| <= MAX_SEGMENTS + 1
      modifies `disk
      ensures Agrees(e, m2, disk, given, {}, map[]) && HashesOk(m2.segments, disk)
      ensures m2.next == m.next && SameContent(m.days, m2.days)
      ensures done <==>
              && m.days != map[]
              && (|m.segments| > maxSegments
                  || exists s :: s in m.segments
                       && s.dead as real / (if s.live + s.dead > 1 then s.live + s.dead else 1) as real > ratio)
      ensures !done ==> m2 == m && disk == old(disk)
      ensures done ==> |m2.segments| == 1 && m2.segments[0].dead == 0 && m2.segments[0].live == |m2.days.Keys|
    {
      m2, done := m, false;
      PreflightPasses(e, m, disk, given, {});
      assert Preflight(m, disk);
      CompactionNeeded(m, maxSegments, ratio);
      Unmoved(m);
      hide Agrees, HashesOk, Preflight, OwnsLane, SameContent, MovedVectors, MovedIds, NeedsCompaction, Repacked;
      if !NeedsCompaction(m, maxSegments, ratio) { return; }
      var dates, vectors, ids := GatherAll(m);
      NothingToMove(m, dates);
      if dates == [] { return; }
      ghost var disk0 := disk;
      ghost var name;
      m2, name := Repack(m, dates, vectors, ids);
      done := true;
      RepackedAgrees(e, m, disk0, given, dates, name, m2, disk);
      RepackedShape(m, disk0, dates, name, m2, disk);
    }

    static lemma ListedCount(dates: seq<Date>, of: set<Date>)
      requires Lists(dates, of)
      ensures |dates| == |of|
    {
      DistinctSize(dates);
      assert of == set d | d in dates;
    }

    /** The loop that points every entry at its new lane. */
    static method Repoint(days0: map<Date, DayRec>, dates: seq<Date>, name: nat) returns (days: map<Date, DayRec>)
      requires forall i :: 0 <= i < |dates| ==> dates[i] in days0
      requires forall i, j :: 0 <= i < j < |dates| ==> dates[i] != dates[j]
      ensures days.Keys == days0.Keys
      ensures forall i: nat :: i < |dates| ==>
                days[dates[i]] == days0[dates[i]].(segment := name, index := i, tombOffset := TombOffset(i))
    {
      days := days0;
      var i := 0;
      while i < |dates|
        invariant 0 <= i <= |dates| && days.Keys == days0.Keys
        invariant forall j: nat :: j < i ==>
                    days[dates[j]] == days0[dates[j]].(segment := name, index := j, tombOffset := TombOffset(j))
        invariant forall j :: i <= j < |dates| ==> days[dates[j]] == days0[dates[j]]
      {
        var d := dates[i];
        days := days[d := DayRec(days[d].chunkId, name, i, TombOffset(i), days[d].contentHash)];
        i := i + 1;
      }
    }

    lemma DaysRewritten(m: Manifest, changed: seq<Chunk>, gone: set<Date>, file: nat, days2: map<Date, DayRec>)
      requires DistinctDates(changed) && DatesOf(changed) !! gone && gone <= m.days.Keys
      requires days2 == EnteredDays(m.next, file, changed, m.days, |changed|) - gone
      ensures NewDays(e, m, changed, gone, file, days2)
    {
      var n := |changed|;
      assert changed[..n] == changed;
      EnteredDaysKept(m.next, file, changed, m.days, n);
      forall i: nat | i < n
        ensures changed[i].date in days2
        ensures days2[changed[i].date] == DayRec(m.next + i, file, i, TombOffset(i), e.hash(Embedded(changed[i])))
      {
        EnteredDaysNew(m.next, file, changed, m.days, n, i);
        assert changed[i].date in DatesOf(changed);
      }
    }

    lemma GivenRewritten(m: Manifest, given0: Chunks, changed: seq<Chunk>, gone: set<Date>, given2: Chunks)
      requires forall x :: x in given0 ==> x < m.next
      requires given2 == EnteredChunks(m.next, changed,
                                       given0 - IdsOf(m.days, Replaced(m.days, DatesOf(changed), gone)), |changed|)
      ensures NewGiven(m, given0, changed, gone, given2)
    {
      EnteredChunksMeaning(m.next, changed, given0 - IdsOf(m.days, Replaced(m.days, DatesOf(changed), gone)),
                           |changed|);
    }

    /** The dates of a set, in some order: no result depends on which. */
    static method Enumerate(dates: set<Date>) returns (list: seq<Date>)
      ensures Lists(list, dates) && SetOf(list) == dates
    {
      list := [];
      var todo := dates;
      while todo != {}
        invariant Lists(list, dates - todo) && todo <= dates
      {
        var d :| d in todo;
        ListsExtended(list, dates - todo, d);
        assert dates - (todo - {d}) == (dates - todo) + {d};
        list := list + [d];
        todo := todo - {d};
      }
      assert dates - todo == dates;
    }

    /** Every date of daily is indexed under the hash of its last chunk. */
    ghost predicate Current(days: map<Date, DayRec>, daily: seq<Chunk>) {
      && days.Keys == ByDate(daily).Keys
      && forall d :: d in days ==> days[d].contentHash == e.hash(Embedded(ByDate(daily)[d]))
    }

    /** A day whose hash is unchanged keeps its id: it is not embedded again. */
    ghost predicate KeptUnlessChanged(before: map<Date, DayRec>, after: map<Date, DayRec>, daily: seq<Chunk>) {
      forall d :: d in before && d in ByDate(daily) && before[d].contentHash == e.hash(Embedded(ByDate(daily)[d])) ==>
        d in after && after[d].chunkId == before[d].chunkId
    }

    /** What the days are after the first half of a sync. */
    ghost predicate Updated(before: map<Date, DayRec>, after: map<Date, DayRec>, byDate: map<Date, Chunk>,
                            changed: set<Date>) {
      && after.Keys == byDate.Keys
      && forall d :: d in after ==>
           && (d in changed ==> after[d].contentHash == e.hash(Embedded(byDate[d])))
           && (d !in changed ==> d in before && after[d] == before[d])
    }

    /** After a sync a changed date has a new id, for which the chunk of the diary was
        given; any other date has the id and the given chunk it had. */
    static ghost predicate Restored(m: Manifest, given0: Chunks, days: map<Date, DayRec>, given2: Chunks,
                                    byDate: map<Date, Chunk>, changed: set<Date>)
    {
      forall d :: d in days ==>
        && days[d].chunkId in given2
        && (d in changed ==> days[d].chunkId >= m.next && d in byDate && given2[days[d].chunkId] == byDate[d])
        && (d !in changed ==>
              && d in m.days && m.days[d].chunkId in given0
              && days[d].chunkId == m.days[d].chunkId && given2[days[d].chunkId] == given0[m.days[d].chunkId])
    }

    /** This chunk is to be embedded: forced, of a new date, or with another hash. */
    ghost predicate ToEmbed(days: map<Date, DayRec>, c: Chunk, force: bool) {
      force || c.date !in days || days[c.date].contentHash != e.hash(c.title + "\n" + c.body)
    }

    /** The day of this chunk is indexed under the chunk's hash; if the chunk was to be embedded
        the day has a new id, for which the chunk itself was given, else its id and text of before. */
    ghost predicate Indexed(m0: Manifest, given0: Chunks, m: Manifest, given: Chunks, c: Chunk, force: bool) {
      && c.date in m.days && m.days[c.date].contentHash == e.hash(c.title + "\n" + c.body)
      && var id := m.days[c.date].chunkId;
         && id in given
         && if ToEmbed(m0.days, c, force) then id >= m0.next && given[id] == c
            else id == m0.days[c.date].chunkId && id in given0 && given[id] == given0[id]
    }

    lemma SyncedByPosition(m0: Manifest, given0: Chunks, m: Manifest, given: Chunks, daily: seq<Chunk>, force: bool)
      requires Current(m.days, daily)
      requires Restored(m0, given0, m.days, given, ByDate(daily), ChangedDates(e, m0.days, ByDate(daily), force))
      ensures forall d :: d in m.days <==> exists i :: 0 <= i < |daily| && daily[i].date == d
      ensures forall i :: LastOf(daily, i) ==> Indexed(m0, given0, m, given, daily[i], force)
    {
      hide ByDate;
      ByDateMeaning(daily);
      forall d ensures d in m.days <==> exists i :: 0 <= i < |daily| && daily[i].date == d {
        assert d in m.days <==> d in m.days.Keys;
      }
      forall i | LastOf(daily, i) ensures Indexed(m0, given0, m, given, daily[i], force) {
        var c := daily[i];
        assert c.date in ByDate(daily) && ByDate(daily)[c.date] == c;
        assert c.date in m.days;
        assert Embedded(c) == c.title + "\n" + c.body;
      }
    }

    lemma WorkByPosition(days: map<Date, DayRec>, daily: seq<Chunk>, force: bool)
      ensures ChangedDates(e, days, ByDate(daily), force) != {} <==>
              exists i :: LastOf(daily, i) && ToEmbed(days, daily[i], force)
      ensures days.Keys <= ByDate(daily).Keys <==>
              forall d :: d in days ==> exists i :: 0 <= i < |daily| && daily[i].date == d
    {
      hide ByDate;
      ByDateMeaning(daily);
      var changed := ChangedDates(e, days, ByDate(daily), force);
      if changed != {} {
        var d: Date :| d in changed;
        var i := LastOfDate(daily, d);
        assert Embedded(daily[i]) == daily[i].title + "\n" + daily[i].body;
        assert ToEmbed(days, daily[i], force);
      }
      if i :| LastOf(daily, i) && ToEmbed(days, daily[i], force) {
        assert Embedded(daily[i]) == daily[i].title + "\n" + daily[i].body;
        assert daily[i].date in changed;
      }
    }

    static lemma RestoredChanged(e: Embedder, m: Manifest, given0: Chunks, changed: seq<Chunk>, gone: set<Date>,
                                 file: nat, days2: map<Date, DayRec>, given2: Chunks, byDate: map<Date, Chunk>, d: Date)
      requires NewDays(e, m, changed, gone, file, days2) && NewGiven(m, given0, changed, gone, given2)
      requires forall c :: c in changed ==> c.date in byDate && byDate[c.date] == c
      requires d in DatesOf(changed)
      ensures d in days2 && days2[d].chunkId in given2 && days2[d].chunkId >= m.next
      ensures d in byDate && given2[days2[d].chunkId] == byDate[d]
    {
      hide DatesOf, Replaced, IdsOf;
      var i := ChangedAt(changed, d);
      assert days2[d].chunkId == m.next + i;
    }

    static lemma ChangedAt(changed: seq<Chunk>, d: Date) returns (i: nat)
      requires d in DatesOf(changed)
      ensures i < |changed| && changed[i].date == d && changed[i] in changed
    {
      i :| i < |changed| && changed[i].date == d;
    }

    static lemma RestoredKept(e: Embedder, m: Manifest, disk0: Disk, given0: Chunks, changed: seq<Chunk>,
                              gone: set<Date>, file: nat, days2: map<Date, DayRec>, given2: Chunks, d: Date)
      requires DaysOk(e, m, disk0, given0)
      requires NewDays(e, m, changed, gone, file, days2) && NewGiven(m, given0, changed, gone, given2)
      requires d in days2 && d !in DatesOf(changed)
      ensures d in m.days && m.days[d].chunkId in given0 && m.days[d].chunkId in given2
      ensures days2[d] == m.days[d] && given2[m.days[d].chunkId] == given0[m.days[d].chunkId]
    {
      hide OwnsLane;
      assert DayOk(e, d, m.days[d], Names(m.segments), disk0, given0, m.next);
      KeptId(m.days, Replaced(m.days, DatesOf(changed), gone), d);
    }

    lemma RestoredByUpdate(m: Manifest, disk0: Disk, given0: Chunks, changed: seq<Chunk>, gone: set<Date>, file: nat,
                           days2: map<Date, DayRec>, given2: Chunks, byDate: map<Date, Chunk>)
      requires DaysOk(e, m, disk0, given0)
      requires NewDays(e, m, changed, gone, file, days2) && NewGiven(m, given0, changed, gone, given2)
      requires forall c :: c in changed ==> c.date in byDate && byDate[c.date] == c
      ensures Restored(m, given0, days2, given2, byDate, DatesOf(changed))
    {
      hide NewDays, NewGiven, DaysOk;
      forall d | d in days2
        ensures days2[d].chunkId in given2
        ensures d in DatesOf(changed) ==>
                days2[d].chunkId >= m.next && d in byDate && given2[days2[d].chunkId] == byDate[d]
        ensures d !in DatesOf(changed) ==>
                  && d in m.days && m.days[d].chunkId in given0
                  && days2[d] == m.days[d] && given2[m.days[d].chunkId] == given0[m.days[d].chunkId]
      {
        if d in DatesOf(changed) {
          RestoredChanged(e, m, given0, changed, gone, file, days2, given2, byDate, d);
        } else {
          RestoredKept(e, m, disk0, given0, changed, gone, file, days2, given2, d);
        }
      }
    }

    static lemma RestoredMoves(m: Manifest, given0: Chunks, days: map<Date, DayRec>, days2: map<Date, DayRec>,
                               given2: Chunks, byDate: map<Date, Chunk>, changed: set<Date>)
      requires Restored(m, given0, days, given2, byDate, changed) && SameContent(days, days2)
      ensures Restored(m, given0, days2, given2, byDate, changed)
    {
      forall d | d in days2 ensures d in days && days2[d].chunkId == days[d].chunkId { }
    }

    lemma RestoredAtRest(m: Manifest, byDate: map<Date, Chunk>)
      requires Agrees(e, m, disk, given, {}, map[])
      ensures Restored(m, given, m.days, given, byDate, {})
    {
      hide OwnsLane;
      forall d | d in m.days ensures m.days[d].chunkId in given {
        assert DayOk(e, d, m.days[d], Names(m.segments), disk, given, m.next);
      }
    }

    lemma DaysAgree(m: Manifest)
      requires Agrees(e, m, disk, given, {}, map[])
      ensures DaysOk(e, m, disk, given)
    {
    }

    lemma CollectedStale(m: Manifest, replaced: set<Date>, stale: seq<DayRec>, dates: seq<Date>, chunks1: Chunks)
      requires Agrees(e, m, disk, given, {}, map[])
      requires Collected(m.days, replaced, stale, dates, meta, chunks1)
      ensures DistinctPlaces(stale) && PlacesFrom(stale, 0) == StalePlaces(m.days, replaced)
    {
      forall p | p in StalePlaces(m.days, replaced) ensures p in PlacesFrom(stale, 0) {
        var d :| d in replaced && d in m.days && p == (m.days[d].segment, m.days[d].index);
        assert d in dates;
        var i :| 0 <= i < |dates| && dates[i] == d;
        assert p == PlaceOf(stale[i]);
      }
      forall i | 0 <= i < |stale|
        ensures stale[i].tombOffset == TombOffset(stale[i].index) && PlaceOf(stale[i]) in StalePlaces(m.days, replaced)
      {
        assert dates[i] in dates;
        assert DayOk(e, dates[i], m.days[dates[i]], Names(m.segments), disk, given, m.next);
      }
      forall i, j | 0 <= i < j < |stale| ensures PlaceOf(stale[i]) != PlaceOf(stale[j]) {
        DistinctDaysDistinctPlaces(e, m, disk, given, dates[i], dates[j]);
      }
    }

    lemma IdsBelowNext(m: Manifest)
      requires Agrees(e, m, disk, given, {}, map[])
      ensures forall x :: x in given ==> x < m.next
    {
      forall x | x in given ensures x < m.next {
        assert x in given.Keys;
        var d :| d in m.days && m.days[d].chunkId == x;
        assert DayOk(e, d, m.days[d], Names(m.segments), disk, given, m.next);
      }
    }

    /** The first half: stale records, the new segment, the two dictionaries. */
    method Update(m: Manifest, changed: seq<Chunk>, deleted: seq<Date>)
      returns (m2: Manifest, chunks: Chunks, stale: seq<DayRec>, ghost file: nat, ghost given2: Chunks)
      requires Agrees(e, m, disk, given, {}, map[]) && HashesOk(m.segments, disk) && |m.segments| <= MAX_SEGMENTS
      requires meta == Saved(given)
      requires DistinctDates(changed) && DatesOf(changed) !! SetOf(deleted)
      requires Lists(deleted, SetOf(deleted)) && SetOf(deleted) <= m.days.Keys
      modifies `disk
      ensures Agrees(e, m2, disk, given2, PlacesFrom(stale, 0), map[]) && HashesOk(m2.segments, disk)
      ensures DistinctPlaces(stale)
      ensures NewDays(e, m, changed, SetOf(deleted), file, m2.days) && m2.next == m.next + |changed|
      ensures NewGiven(m, given, changed, SetOf(deleted), given2) && Saved(chunks) == Saved(given2)
      ensures |m2.segments| == |m.segments| + if changed == [] then 0 else 1
    {
      hide Agrees, HashesOk, NewDays, NewGiven, Appended, Collected, DistinctPlaces, PlacesFrom, StalePlaces, IdsOf;
      ghost var gone := SetOf(deleted);
      ghost var replaced := Replaced(m.days, DatesOf(changed), gone);
      IdsBelowNext(m);
      var stale1, chunks1, dates1 := CollectChanged(m.days, changed, meta);
      ghost var dates;
      stale, chunks, dates :=
        CollectGone(m.days, deleted, m.days.Keys * DatesOf(changed), stale1, dates1, meta, chunks1);
      CollectedStale(m, replaced, stale, dates, chunks);
      ghost var disk0 := disk;
      var m1;
      m1, file := AppendSegment(m, changed);
      var days1 := m1.days;
      if changed != [] {
        days1, chunks := EnterChunks(m.next, m1.segments[|m1.segments| - 1].file, changed, m.days, chunks);
      }
      m2 := m1.(days := days1 - SetOfList(deleted));
      DaysRewritten(m, changed, gone, file, m2.days);
      given2 := EnteredChunks(m.next, changed, given - IdsOf(m.days, replaced), |changed|);
      EnteredSaved(m.next, changed, given, meta, IdsOf(m.days, replaced), |changed|);
      GivenRewritten(m, given, changed, gone, given2);
      RewrittenAgrees(e, m, disk0, given, changed, gone, file, m2, disk, given2, StalePlaces(m.days, replaced));
    }

    lemma UpdatedDays(m: Manifest, changed: seq<Chunk>, gone: set<Date>, file: nat,
                      days2: map<Date, DayRec>, byDate: map<Date, Chunk>, force: bool)
      requires NewDays(e, m, changed, gone, file, days2) && gone == m.days.Keys - byDate.Keys
      requires DatesOf(changed) == ChangedDates(e, m.days, byDate, force)
      requires forall c :: c in changed ==> c.date in byDate && byDate[c.date] == c
      ensures Updated(m.days, days2, byDate, DatesOf(changed))
    {
      forall d | d in byDate ensures d in days2 {
        assert d in DatesOf(changed) || d in m.days;
      }
      forall d | d in days2 && d in DatesOf(changed) ensures days2[d].contentHash == e.hash(Embedded(byDate[d])) {
        var i :| 0 <= i < |changed| && changed[i].date == d;
      }
    }

    static lemma {:induction false} DatesCount(changed: seq<Chunk>)
      requires DistinctDates(changed)
      ensures |DatesOf(changed)| == |changed|
    {
      if changed == [] {
        assert DatesOf(changed) == {};
      } else {
        var n := |changed| - 1;
        DatesCount(changed[..n]);
        assert changed == changed[..n] + [changed[n]];
        assert DatesOf(changed) == DatesOf(changed[..n]) + {changed[n].date};
      }
    }

    static function SetOfList(dates: seq<Date>): (r: set<Date>)
      ensures r == SetOf(dates)
    {
      set d | d in dates
    }

    lemma Synced(before: map<Date, DayRec>, updated: map<Date, DayRec>, after: map<Date, DayRec>, daily: seq<Chunk>,
                 force: bool)
      requires Updated(before, updated, ByDate(daily), ChangedDates(e, before, ByDate(daily), force))
      requires SameContent(updated, after)
      ensures Current(after, daily)
      ensures !force ==> KeptUnlessChanged(before, after, daily)
    {
      forall d | d in after ensures after[d].contentHash == e.hash(Embedded(ByDate(daily)[d])) {
        assert d in updated;
      }
      if !force {
        forall d | d in before && d in ByDate(daily) && before[d].contentHash == e.hash(Embedded(ByDate(daily)[d]))
          ensures d in after && after[d].chunkId == before[d].chunkId
        {
          assert d in updated;
        }
      }
    }

    /** The second half: tombstones, counts, then the manifest is saved again. */
    method Bury(m: Manifest, stale: seq<DayRec>) returns (m2: Manifest)
      requires Agrees(e, m, disk, given, PlacesFrom(stale, 0), map[]) && HashesOk(m.segments, disk)
      requires DistinctPlaces(stale)
      modifies `disk, `manifest
      ensures Agrees(e, m2, disk, given, {}, map[]) && HashesOk(m2.segments, disk)
      ensures m2.days == m.days && m2.next == m.next && |m2.segments| == |m.segments|
      ensures manifest == m2
    {
      PreflightPasses(e, m, disk, given, PlacesFrom(stale, 0));
      manifest := m;
      var bump := WriteTombstones(m, stale);
      m2 := CountDead(m, bump);
      CountedAgrees(e, m, disk, given, bump, m2);
      PreflightPasses(e, m2, disk, given, {});
      manifest := m2;
    }

    /** The third half: compaction, and the manifest saved once more if it fired. */
    method Finish(m: Manifest)
      requires Agrees(e, m, disk, given, {}, map[]) && HashesOk(m.segments, disk) && manifest == m
      requires |m.segments| <= MAX_SEGMENTS || (|m.segments| == MAX_SEGMENTS + 1 && m.days != map[])
      requires meta == Saved(given)
      modifies `disk, `manifest
      ensures Valid() && SameContent(m.days, manifest.days) && manifest.next == m.next
      ensures manifest == m || |manifest.segments| == 1
      ensures manifest == m && m.days != map[] && |m.segments| != 1 ==>
                && |m.segments| <= 8
                && forall s :: s in m.segments ==>
                     s.dead as real / (if s.live + s.dead > 1 then s.live + s.dead else 1) as real <= 0.5
      ensures m.days == map[] || (|m.segments| <= 8 && forall s :: s in m.segments ==>
                s.dead as real / (if s.live + s.dead > 1 then s.live + s.dead else 1) as real <= 0.5) ==>
                manifest == m
    {
      hide Agrees, HashesOk;
      var m2, done := MaybeCompact(m, MAX_SEGMENTS, DEAD_RATIO);
      if done {
        manifest := m2;
      }
    }

    /** The part of a sync that runs when there is work. */
    method Rework(changed: seq<Chunk>, deleted: seq<Date>, ghost byDate: map<Date, Chunk>, ghost force: bool)
      returns (ghost updated: map<Date, DayRec>)
      requires Valid() && DistinctDates(changed) && DatesOf(changed) == ChangedDates(e, manifest.days, byDate, force)
      requires forall c :: c in changed ==> c.date in byDate && byDate[c.date] == c
      requires Lists(deleted, SetOf(deleted)) && SetOf(deleted) == manifest.days.Keys - byDate.Keys
      modifies this
      ensures Valid() && manifest.next == old(manifest).next + |changed|
      ensures Updated(old(manifest).days, updated, byDate, DatesOf(changed)) && SameContent(updated, manifest.days)
      ensures Restored(old(manifest), old(given), manifest.days, given, byDate, DatesOf(changed))
    {
      hide Agrees, HashesOk, NewDays, NewGiven, Updated, DistinctPlaces, PlacesFrom, Restored, DaysOk, Saved,
           SameContent;
      var m := manifest;
      ghost var given0, disk0 := given, disk;
      DaysAgree(m);
      assert DatesOf(changed) !! SetOf(deleted) && SetOf(deleted) <= m.days.Keys by {
        assert DatesOf(changed) <= byDate.Keys;
      }
      var m2, chunks, stale, file, given2 := Update(m, changed, deleted);
      RestoredByUpdate(m, disk0, given0, changed, SetOf(deleted), file, m2.days, given2, byDate);
      UpdatedDays(m, changed, SetOf(deleted), file, m2.days, byDate, force);
      updated := m2.days;
      meta := Saved(chunks);
      given := given2;
      var m3 := Bury(m2, stale);
      SomeDay(m, changed, SetOf(deleted), file, m3.days);
      Finish(m3);
      RestoredMoves(m, given0, updated, manifest.days, given2, byDate, DatesOf(changed));
    }

    lemma SomeDay(m: Manifest, changed: seq<Chunk>, gone: set<Date>, file: nat, days2: map<Date, DayRec>)
      requires NewDays(e, m, changed, gone, file, days2)
      ensures changed != [] ==> days2 != map[]
    {
      if changed != [] { assert changed[0].date in days2; }
    }

    static lemma NoneLeft(a: set<Date>, b: set<Date>)
      ensures a - b == {} <==> a <= b
    {
      if a - b == {} {
        forall d | d in a ensures d in b { assert d !in a - b; }
      }
    }

    /** Nothing to embed and nothing to delete: the index is current as it is. */
    lemma AtRest(m: Manifest, daily: seq<Chunk>, force: bool)
      requires Agrees(e, m, disk, given, {}, map[])
      requires ChangedDates(e, m.days, ByDate(daily), force) == {} && m.days.Keys <= ByDate(daily).Keys
      ensures Current(m.days, daily) && KeptUnlessChanged(m.days, m.days, daily)
      ensures Restored(m, given, m.days, given, ByDate(daily), {})
      ensures forall d :: d in m.days <==> exists i :: 0 <= i < |daily| && daily[i].date == d
      ensures forall i :: LastOf(daily, i) ==> Indexed(m, given, m, given, daily[i], force)
    {
      hide Agrees, Restored, ByDate, Indexed, Embedded;
      forall d | d in ByDate(daily) ensures d in m.days && m.days[d].contentHash == e.hash(Embedded(ByDate(daily)[d])) {
        assert d !in ChangedDates(e, m.days, ByDate(daily), force);
      }
      RestoredAtRest(m, ByDate(daily));
      SyncedByPosition(m, given, m, given, daily, force);
    }

    /** sync_diary_index_lsm. Whatever was added, edited, deleted or forced, and
        whether or not compaction fires, the index ends up valid and current;
        exactly the changed days get a new id and their new text, and the result
        says whether anything had to be done. */
    method Sync(daily: seq<Chunk>, force: bool) returns (worked: bool)
      requires Valid()
      modifies this
      ensures Valid() && Current(manifest.days, daily)
      ensures !force ==> KeptUnlessChanged(old(manifest).days, manifest.days, daily)
      ensures Restored(old(manifest), old(given), manifest.days, given, ByDate(daily),
                       ChangedDates(e, old(manifest).days, ByDate(daily), force))
      ensures manifest.next == old(manifest).next + |ChangedDates(e, old(manifest).days, ByDate(daily), force)|
      ensures worked <==> ChangedDates(e, old(manifest).days, ByDate(daily), force) != {}
                          || !(old(manifest).days.Keys <= ByDate(daily).Keys)
      ensures forall d :: d in manifest.days <==> exists i :: 0 <= i < |daily| && daily[i].date == d
      ensures forall i :: LastOf(daily, i) ==> Indexed(old(manifest), old(given), manifest, given, daily[i], force)
      ensures worked <==> (exists i :: LastOf(daily, i) && ToEmbed(old(manifest).days, daily[i], force))
                          || exists d :: d in old(manifest).days
                                 && forall i :: 0 <= i < |daily| ==> daily[i].date != d
      ensures !worked ==> manifest == old(manifest) && meta == old(meta) && given == old(given) && disk == old(disk)
    {
      hide Agrees, HashesOk, Preflight, Updated, Restored, Saved, SameContent, ByDate, Indexed, ToEmbed, LastOf,
           Current, KeptUnlessChanged, ChangedDates;
      PreflightPasses(e, manifest, disk, given, {});
      assert Preflight(manifest, disk);
      WorkByPosition(manifest.days, daily, force);
      var m := manifest;
      var order, byDate := LastPerDate(daily);
      var changed := FindChanged(m.days, order, byDate, force);
      DatesCount(changed);
      var deleted := Enumerate(m.days.Keys - byDate.Keys);
      NothingListed(changed, deleted);
      NoneLeft(m.days.Keys, byDate.Keys);
      if changed == [] && deleted == [] {
        AtRest(m, daily, force);
        return false;
      }
      worked := true;
      ghost var given0 := given;
      ghost var updated := Rework(changed, deleted, byDate, force);
      Synced(m.days, updated, manifest.days, daily, force);
      SyncedByPosition(m, given0, manifest, given, daily, force);
    }

    static lemma NothingListed(changed: seq<Chunk>, deleted: seq<Date>)
      ensures changed == [] <==> DatesOf(changed) == {}
      ensures deleted == [] <==> SetOf(deleted) == {}
    {
      if changed != [] { assert changed[0].date in DatesOf(changed); }
      if deleted != [] { assert deleted[0] in SetOf(deleted); }
    }
  }
}
