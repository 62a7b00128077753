/** sync_diary_index followed by search_daily of consultation_engine.py: when the index
    ranks like the diary itself, for one sync and over whole runs. */
module DiarySearch {
  import opened Ranking
  import opened TopKSearch
  import opened AosoaFile
  import opened LsmIndex
  import opened LsmSearch
  import opened CanonicalText
  import LsmStore

  /** content_hash: the digest of the canonical text, not of the text that is embedded. */
  ghost predicate DigestsCanonicalText(e: Embedder) {
    forall x: Text, y: Text :: e.hash(x) == e.hash(y) <==> CanonicalizeText(x) == CanonicalizeText(y)
  }

  /** A number that determines its text. */
  function Number(s: Text): nat {
    if s == [] then 0 else Number(s[1..]) * 0x110001 + s[0] as int + 1
  }

  lemma {:induction false} NumberInjective(x: Text, y: Text)
    requires Number(x) == Number(y)
    ensures x == y
  {
    if x != [] && y != [] {
      LastDigit(Number(x[1..]), x[0], Number(y[1..]), y[0]);
      NumberInjective(x[1..], y[1..]);
      assert x == [x[0]] + x[1..] && y == [y[0]] + y[1..];
    }
  }

  lemma LastDigit(m: nat, c: char, n: nat, d: char)
    requires m * 0x110001 + c as int + 1 == n * 0x110001 + d as int + 1
    ensures m == n && c == d
  {
    assert 0 <= c as int < 0x110000 && 0 <= d as int < 0x110000;
  }

  /** Whatever the vectors, there is such a hash. */
  lemma DigestExists(embed: Text -> Vec) returns (e: Embedder)
    ensures DigestsCanonicalText(e) && e.embed == embed
  {
    hide CanonicalizeText, Number;
    e := Embedder(embed, t => Number(CanonicalizeText(t)));
    forall x: Text, y: Text ensures e.hash(x) == e.hash(y) <==> CanonicalizeText(x) == CanonicalizeText(y) {
      if e.hash(x) == e.hash(y) { NumberInjective(CanonicalizeText(x), CanonicalizeText(y)); }
    }
  }

  /** Without force a known date is embedded again exactly when its canonical text is not
      that of the entry in the metadata file. */
  lemma EditNoticed(e: Embedder, m: Manifest, disk: Disk, given: Chunks, meta: Chunks, daily: seq<Chunk>, d: Date)
    requires DigestsCanonicalText(e) && DaysOk(e, m, disk, given) && meta == Saved(given)
    requires d in m.days && d in ByDate(daily)
    ensures m.days[d].chunkId in meta
    ensures d in ChangedDates(e, m.days, ByDate(daily), false) <==>
            CanonicalizeText(Embedded(meta[m.days[d].chunkId])) != CanonicalizeText(Embedded(ByDate(daily)[d]))
  {
    hide CanonicalizeText, ByDate, OwnsLane, Embedded;
    assert DayOk(e, d, m.days[d], Names(m.segments), disk, given, m.next);
    StoredText(given[m.days[d].chunkId]);
  }

  // ------------------------------------------------------------ one sync

  /** The dates a sync does not embed again. */
  ghost function KeptDates(e: Embedder, m: Manifest, daily: seq<Chunk>, force: bool): set<Date> {
    ByDate(daily).Keys - ChangedDates(e, m.days, ByDate(daily), force)
  }

  /** Before a sync: the lane of each date it will keep holds the vector of the diary's text. */
  ghost predicate KeptLanes(e: Embedder, m: Manifest, disk: Disk, daily: seq<Chunk>, force: bool) {
    forall d :: d in KeptDates(e, m, daily, force) && d in m.days && OwnsLane(disk, m.days[d]) ==>
      DayVec(disk, m.days[d]) == e.embed(Embedded(ByDate(daily)[d]))
  }

  /** Before a sync: the text last given for each date it will keep embeds as the diary's. */
  ghost predicate KeptVectors(e: Embedder, m: Manifest, given: Chunks, daily: seq<Chunk>, force: bool) {
    forall d :: d in KeptDates(e, m, daily, force) && d in m.days && m.days[d].chunkId in given ==>
      e.embed(Embedded(given[m.days[d].chunkId])) == e.embed(Embedded(ByDate(daily)[d]))
  }

  /** Before a sync: the text last given for each date it will keep is the diary's, literally. */
  ghost predicate KeptTexts(e: Embedder, m: Manifest, given: Chunks, daily: seq<Chunk>, force: bool) {
    forall d :: d in KeptDates(e, m, daily, force) && d in m.days && m.days[d].chunkId in given ==>
      Embedded(given[m.days[d].chunkId]) == Embedded(ByDate(daily)[d])
  }

  lemma LanesAreGiven(e: Embedder, m: Manifest, disk: Disk, given: Chunks, daily: seq<Chunk>, force: bool)
    requires DaysOk(e, m, disk, given)
    ensures KeptLanes(e, m, disk, daily, force) <==> KeptVectors(e, m, given, daily, force)
  {
    hide ByDate, Embedded, ChangedDates, LaneVec, TombOffset;
    forall d | d in m.days
      ensures OwnsLane(disk, m.days[d]) && m.days[d].chunkId in given
      ensures DayVec(disk, m.days[d]) == e.embed(Embedded(given[m.days[d].chunkId]))
    {
      assert DayOk(e, d, m.days[d], Names(m.segments), disk, given, m.next);
    }
  }

  lemma SyncCovers(e: Embedder, m: Manifest, disk: Disk, given: Chunks, daily: seq<Chunk>)
    requires DaysOk(e, m, disk, given) && m.days.Keys == ByDate(daily).Keys
    ensures Covers(m, given, daily)
  {
    hide OwnsLane;
    forall d | d in m.days ensures m.days[d].chunkId in given && m.days[d].chunkId >= 0 {
      assert DayOk(e, d, m.days[d], Names(m.segments), disk, given, m.next);
    }
  }

  /** What a sync keeps decides what it leaves: for changed dates the diary's text is given. */
  lemma SyncedTexts(e: Embedder, m0: Manifest, given0: Chunks, m: Manifest, given: Chunks, daily: seq<Chunk>,
                    force: bool)
    requires Covers(m, given, daily)
    requires LsmStore.Index.Restored(m0, given0, m.days, given, ByDate(daily),
                                     ChangedDates(e, m0.days, ByDate(daily), force))
    ensures SameVectors(e, m, given, daily) <==> KeptVectors(e, m0, given0, daily, force)
    ensures SameTexts(m, given, daily) <==> KeptTexts(e, m0, given0, daily, force)
  {
    hide ByDate, ChangedDates, UniqueIds, Embedded;
    var changed := ChangedDates(e, m0.days, ByDate(daily), force);
    forall d | d in m.days
      ensures d in ByDate(daily)
      ensures d in changed ==> given[m.days[d].chunkId] == ByDate(daily)[d]
      ensures d !in changed ==>
                && d in KeptDates(e, m0, daily, force) && d in m0.days && m0.days[d].chunkId in given0
                && given[m.days[d].chunkId] == given0[m0.days[d].chunkId]
    {
      assert d in m.days.Keys;
    }
    forall d | d in KeptDates(e, m0, daily, force) ensures d in m.days && d !in changed {
    }
  }

  /** After a sync the index ranks like the diary, whatever is asked, exactly when before it
      the lane of each date it kept held the vector of the date's present text. */
  lemma IndexIsDiaryExactly(e: Embedder, m0: Manifest, disk0: Disk, given0: Chunks, m: Manifest, given: Chunks,
                            daily: seq<Chunk>, force: bool)
    requires DaysOk(e, m0, disk0, given0) && Covers(m, given, daily)
    requires LsmStore.Index.Restored(m0, given0, m.days, given, ByDate(daily),
                                     ChangedDates(e, m0.days, ByDate(daily), force))
    ensures (forall score: Vec -> Score :: DayHits(e, score, m, given) == CorpusHits(e, score, m, daily))
            <==> KeptLanes(e, m0, disk0, daily, force)
  {
    hide *;
    LanesAreGiven(e, m0, disk0, given0, daily, force);
    SyncedTexts(e, m0, given0, m, given, daily, force);
    DayHitsAreCorpusHits(e, m, given, daily);
  }

  // ------------------------------------------------------------ whole runs

  /** Texts with the same canonical form have the same vector. */
  ghost predicate RespectsCanonical(e: Embedder) {
    forall a: Chunk, b: Chunk :: CanonicalizeText(Embedded(a)) == CanonicalizeText(Embedded(b)) ==>
      e.embed(Embedded(a)) == e.embed(Embedded(b))
  }

  /** The manifest, and what was given under its ids. */
  datatype State = State(m: Manifest, given: Chunks)

  datatype Input = Input(daily: seq<Chunk>, force: bool)

  /** What a sync does to them. */
  ghost predicate SyncStep(e: Embedder, s: State, i: Input, t: State) {
    && Covers(t.m, t.given, i.daily)
    && HashesCurrent(e, t.m, i.daily)
    && LsmStore.Index.Restored(s.m, s.given, t.m.days, t.given, ByDate(i.daily),
                               ChangedDates(e, s.m.days, ByDate(i.daily), i.force))
  }

  ghost predicate HashesCurrent(e: Embedder, m: Manifest, daily: seq<Chunk>) {
    forall d :: d in m.days && d in ByDate(daily) ==> m.days[d].contentHash == e.hash(Embedded(ByDate(daily)[d]))
  }

  /** Any syncs one after the other, from the empty index on. */
  ghost predicate IsRun(e: Embedder, states: seq<State>, inputs: seq<Input>) {
    && |states| == |inputs| + 1 && states[0].m.days == map[]
    && forall i :: 0 <= i < |inputs| ==> SyncStep(e, states[i], inputs[i], states[i + 1])
  }

  ghost predicate RanksLikeDiary(e: Embedder, s: State, daily: seq<Chunk>) {
    forall score: Vec -> Score :: DayHits(e, score, s.m, s.given) == CorpusHits(e, score, s.m, daily)
  }

  ghost predicate HashesKept(e: Embedder, s: State) {
    forall d :: d in s.m.days ==>
      s.m.days[d].chunkId in s.given && e.hash(Embedded(s.given[s.m.days[d].chunkId])) == s.m.days[d].contentHash
  }

  lemma StepKeepsHashes(e: Embedder, s: State, i: Input, t: State)
    requires HashesKept(e, s) && SyncStep(e, s, i, t)
    ensures HashesKept(e, t)
  {
    hide ByDate, Embedded, UniqueIds;
    var changed := ChangedDates(e, s.m.days, ByDate(i.daily), i.force);
    forall d | d in t.m.days
      ensures t.m.days[d].chunkId in t.given
      ensures e.hash(Embedded(t.given[t.m.days[d].chunkId])) == t.m.days[d].contentHash
    {
      assert d in t.m.days.Keys;
      if d !in changed { assert s.m.days[d].contentHash == e.hash(Embedded(ByDate(i.daily)[d])); }
    }
  }

  lemma {:induction false} RunKeepsHashes(e: Embedder, states: seq<State>, inputs: seq<Input>, n: nat)
    requires IsRun(e, states, inputs) && n <= |inputs|
    ensures HashesKept(e, states[n])
  {
    hide SyncStep;
    if n > 0 {
      RunKeepsHashes(e, states, inputs, n - 1);
      StepKeepsHashes(e, states[n - 1], inputs[n - 1], states[n]);
    }
  }

  /** A state whose hashes are current ranks like the diary under such an embedder. */
  lemma RespectedRanks(e: Embedder, s: State, daily: seq<Chunk>)
    requires DigestsCanonicalText(e) && RespectsCanonical(e)
    requires HashesKept(e, s) && Covers(s.m, s.given, daily) && HashesCurrent(e, s.m, daily)
    ensures RanksLikeDiary(e, s, daily)
  {
    hide CanonicalizeText, Embedded, ByDate, DayHits, CorpusHits, UniqueIds;
    forall d | d in s.m.days && d in ByDate(daily)
      ensures e.embed(Embedded(s.given[s.m.days[d].chunkId])) == e.embed(Embedded(ByDate(daily)[d]))
    {
      assert e.hash(Embedded(s.given[s.m.days[d].chunkId])) == e.hash(Embedded(ByDate(daily)[d]));
    }
    DayHitsAreCorpusHits(e, s.m, s.given, daily);
  }

  /** The index with the single chunk c. */
  function Single(e: Embedder, c: Chunk): State {
    State(Manifest(1, [], map[c.date := DayRec(0, 1, 0, TombOffset(0), e.hash(Embedded(c)))]), map[0 := c])
  }

  const EMPTY := State(Manifest(0, [], map[]), map[])

  lemma SingleCovers(e: Embedder, c: Chunk, b: Chunk)
    requires b.date == c.date
    ensures Covers(Single(e, c).m, Single(e, c).given, [b]) && ByDate([b]) == map[c.date := b]
  {
    OneDate(b);
  }

  lemma FirstSync(e: Embedder, c: Chunk)
    ensures SyncStep(e, EMPTY, Input([c], false), Single(e, c))
  {
    hide Embedded;
    SingleCovers(e, c, c);
  }

  /** A second sync with a chunk of the same hash leaves the index as it is. */
  lemma SecondSync(e: Embedder, a: Chunk, b: Chunk)
    requires a.date == b.date && e.hash(Embedded(a)) == e.hash(Embedded(b))
    ensures SyncStep(e, Single(e, a), Input([b], false), Single(e, a))
  {
    hide Embedded;
    SingleCovers(e, a, b);
    assert ChangedDates(e, Single(e, a).m.days, ByDate([b]), false) == {};
  }

  lemma TwoSyncs(e: Embedder, a: Chunk, b: Chunk) returns (states: seq<State>, inputs: seq<Input>)
    requires a.date == b.date && e.hash(Embedded(a)) == e.hash(Embedded(b))
    ensures states == [EMPTY, Single(e, a), Single(e, a)] && inputs == [Input([a], false), Input([b], false)]
    ensures IsRun(e, states, inputs)
  {
    states, inputs := [EMPTY, Single(e, a), Single(e, a)], [Input([a], false), Input([b], false)];
    FirstSync(e, a);
    SecondSync(e, a, b);
    hide SyncStep;
    forall i | 0 <= i < |inputs| ensures SyncStep(e, states[i], inputs[i], states[i + 1]) {
      assert i == 0 || i == 1;
    }
  }

  lemma SingleRanks(e: Embedder, a: Chunk, b: Chunk)
    requires a.date == b.date
    ensures RanksLikeDiary(e, Single(e, a), [b]) <==> e.embed(Embedded(a)) == e.embed(Embedded(b))
  {
    hide Embedded, DayHits, CorpusHits;
    SingleCovers(e, a, b);
    DayHitsAreCorpusHits(e, Single(e, a).m, Single(e, a).given, [b]);
    assert a.date in Single(e, a).m.days;
  }

  /** Every state of every run ranks like the diary it was synced with. */
  ghost predicate AlwaysRanksLikeDiary(e: Embedder) {
    forall states: seq<State>, inputs: seq<Input>, n: nat :: IsRun(e, states, inputs) && n < |inputs| ==>
      RanksLikeDiary(e, states[n + 1], inputs[n].daily)
  }

  /** Over all runs of syncs the index ranks like the diary exactly when the embedder does
      not see what canonicalisation takes away. */
  lemma EveryRunExact(e: Embedder)
    requires DigestsCanonicalText(e)
    ensures RespectsCanonical(e) <==> AlwaysRanksLikeDiary(e)
  {
    hide RanksLikeDiary, CanonicalizeText, Embedded, Single;
    if RespectsCanonical(e) {
      forall states: seq<State>, inputs: seq<Input>, n: nat | IsRun(e, states, inputs) && n < |inputs|
        ensures RanksLikeDiary(e, states[n + 1], inputs[n].daily)
      {
        RunKeepsHashes(e, states, inputs, n + 1);
        assert SyncStep(e, states[n], inputs[n], states[n + 1]);
        RespectedRanks(e, states[n + 1], inputs[n].daily);
      }
    } else {
      var a: Chunk, b: Chunk :| CanonicalizeText(Embedded(a)) == CanonicalizeText(Embedded(b)) &&
                                e.embed(Embedded(a)) != e.embed(Embedded(b));
      var b' := b.(date := a.date);
      SameEmbedded(b, a.date);
      var states, inputs := TwoSyncs(e, a, b');
      SingleRanks(e, a, b');
      assert !RanksLikeDiary(e, states[1 + 1], inputs[1].daily);
    }
  }

  lemma SameEmbedded(c: Chunk, d: Date)
    ensures Embedded(c.(date := d)) == Embedded(c)
  {
  }

  /** The fallback embedder canonicalises first, so under it the index is never stale. */
  lemma FallbackNeverStale(e: Embedder, buckets: Text -> Vec)
    requires DigestsCanonicalText(e) && forall t: Text :: e.embed(t) == buckets(CanonicalizeText(t))
    ensures AlwaysRanksLikeDiary(e)
  {
    hide AlwaysRanksLikeDiary, CanonicalizeText;
    EveryRunExact(e);
  }

  // ------------------------------------------------------------ the metadata file decides nothing

  /** The entries of the metadata file are the diary's chunks, literally. */
  ghost predicate StoredLiterally(s: State, daily: seq<Chunk>) {
    forall d :: d in s.m.days && d in ByDate(daily) && s.m.days[d].chunkId in s.given ==>
      Saved(s.given)[s.m.days[d].chunkId] == ByDate(daily)[d]
  }

  lemma SingleStored(e: Embedder, a: Chunk, b: Chunk)
    requires a.date == b.date
    ensures StoredLiterally(Single(e, a), [b]) <==> Stored(a) == b
  {
    hide Stored, Embedded;
    SingleCovers(e, a, b);
    assert Saved(Single(e, a).given)[0] == Stored(a);
    assert a.date in Single(e, a).m.days;
  }

  /** Literal equality with the metadata file is not enough: a doubled space is taken out of
      a day that is canonical without it, and the vector is still that of the doubled space. */
  lemma StoredTextNotEnough(e: Embedder, date: Date, title: Text, x: Text, y: Text)
    returns (states: seq<State>, inputs: seq<Input>)
    requires DigestsCanonicalText(e)
    requires var a, b := Chunk(date, title, x + [SPACE, SPACE] + y), Chunk(date, title, x + [SPACE] + y);
             Stored(b) == b && e.embed(Embedded(a)) != e.embed(Embedded(b))
    ensures IsRun(e, states, inputs) && |inputs| == 2
    ensures inputs[1].daily == [Chunk(date, title, x + [SPACE] + y)]
    ensures StoredLiterally(states[2], inputs[1].daily) && !RanksLikeDiary(e, states[2], inputs[1].daily)
  {
    var a, b := Chunk(date, title, x + [SPACE, SPACE] + y), Chunk(date, title, x + [SPACE] + y);
    SpaceNotSeen(date, title, x, y);
    states, inputs := TwoSyncs(e, a, b);
    SingleStored(e, a, b);
    SingleRanks(e, a, b);
  }

  /** Nor is it needed: a day whose text is not canonical is stored otherwise, and ranks right. */
  lemma StoredTextNotNeeded(e: Embedder, c: Chunk) returns (states: seq<State>, inputs: seq<Input>)
    requires Stored(c) != c
    ensures IsRun(e, states, inputs) && |inputs| == 2 && inputs[1].daily == [c]
    ensures !StoredLiterally(states[2], inputs[1].daily) && RanksLikeDiary(e, states[2], inputs[1].daily)
  {
    states, inputs := TwoSyncs(e, c, c);
    SingleStored(e, c, c);
    SingleRanks(e, c, c);
  }

  /** A day with an empty line in its body, as behind every rendered session, is such a day. */
  lemma EmptyLineNotNeeded(e: Embedder, date: Date, title: Text, x: Text, y: Text)
    returns (states: seq<State>, inputs: seq<Input>)
    ensures IsRun(e, states, inputs) && |inputs| == 2
    ensures inputs[1].daily == [Chunk(date, title, x + [NEWLINE, NEWLINE] + y)]
    ensures !StoredLiterally(states[2], inputs[1].daily) && RanksLikeDiary(e, states[2], inputs[1].daily)
  {
    hide CanonicalizeText, StoredLiterally, RanksLikeDiary, IsRun;
    EmptyLineFolded(x, y);
    states, inputs := StoredTextNotNeeded(e, Chunk(date, title, x + [NEWLINE, NEWLINE] + y));
  }

  lemma SpaceNotSeen(date: Date, title: Text, x: Text, y: Text)
    ensures var a, b := Chunk(date, title, x + [SPACE, SPACE] + y), Chunk(date, title, x + [SPACE] + y);
            Stored(a) == Stored(b) && CanonicalizeText(Embedded(a)) == CanonicalizeText(Embedded(b))
  {
    hide CanonicalizeText;
    DoubledSpace(x, y);
    StoredText(Chunk(date, title, x + [SPACE, SPACE] + y));
    StoredText(Chunk(date, title, x + [SPACE] + y));
  }

  // ------------------------------------------------------------ the two calls

  lemma AgreesDays(e: Embedder, m: Manifest, disk: Disk, given: Chunks)
    requires Agrees(e, m, disk, given, {}, map[])
    ensures DaysOk(e, m, disk, given)
  {
  }

  /** An embedder that respects the canonical form finds every kept lane right. */
  lemma RespectedLanes(e: Embedder, m: Manifest, disk: Disk, given: Chunks, daily: seq<Chunk>, force: bool)
    requires DigestsCanonicalText(e) && RespectsCanonical(e) && DaysOk(e, m, disk, given)
    ensures KeptLanes(e, m, disk, daily, force)
  {
    hide CanonicalizeText, ByDate, Embedded, OwnsLane, LaneVec;
    forall d | d in KeptDates(e, m, daily, force) && d in m.days
      ensures m.days[d].chunkId in given
      ensures e.embed(Embedded(given[m.days[d].chunkId])) == e.embed(Embedded(ByDate(daily)[d]))
    {
      assert DayOk(e, d, m.days[d], Names(m.segments), disk, given, m.next);
      assert e.hash(Embedded(given[m.days[d].chunkId])) == e.hash(Embedded(ByDate(daily)[d]));
    }
    LanesAreGiven(e, m, disk, given, daily, force);
  }

  /** Every sync is a step of a run. */
  method SyncOnce(index: LsmStore.Index, daily: seq<Chunk>, force: bool) returns (worked: bool)
    requires index.Valid()
    modifies index
    ensures index.Valid() && Covers(index.manifest, index.given, daily)
    ensures SyncStep(index.e, State(old(index.manifest), old(index.given)), Input(daily, force),
                     State(index.manifest, index.given))
    ensures old(KeptLanes(index.e, index.manifest, index.disk, daily, force)) <==>
            RanksLikeDiary(index.e, State(index.manifest, index.given), daily)
    ensures SameVectors(index.e, index.manifest, index.given, daily) <==>
            old(KeptLanes(index.e, index.manifest, index.disk, daily, force))
  {
    hide KeptLanes, CorpusHits, DayHits, ByDate, Covers, SameVectors, Agrees, HashesOk, LsmStore.Index.Restored, DaysOk,
         ChangedDates;
    ghost var m0, disk0, given0 := index.manifest, index.disk, index.given;
    AgreesDays(index.e, m0, disk0, given0);
    worked := index.Sync(daily, force);
    AgreesDays(index.e, index.manifest, index.disk, index.given);
    SyncCovers(index.e, index.manifest, index.disk, index.given, daily);
    IndexIsDiaryExactly(index.e, m0, disk0, given0, index.manifest, index.given, daily, force);
    DayHitsAreCorpusHits(index.e, index.manifest, index.given, daily);
  }

  /** A sync, then a search: the first top_k days of the diary itself, if the lanes the sync
      kept hold the diary's vectors, and always under an embedder that respects the
      canonical form; on every index a run of syncs can leave. */
  method SyncAndSearch(index: LsmStore.Index, daily: seq<Chunk>, force: bool, score: Vec -> Score, topK: int,
                       plans: Plans)
    returns (r: Result<seq<Hit>>)
    requires index.Valid() && PlansOk(plans)
    modifies index
    ensures index.Valid() && Covers(index.manifest, index.given, daily)
    ensures old(KeptLanes(index.e, index.manifest, index.disk, daily, force))
            || (DigestsCanonicalText(index.e) && RespectsCanonical(index.e)) ==>
              var m := index.manifest;
              && (r.Failed? <==> (topK < 0 && m.segments != []) || SomeTextBad(index.e, score, m, daily))
              && (r.Failed? <==> (topK < 0 && m.segments != [])
                                 || exists i :: LastOf(daily, i) && !Rankable(ChunkScore(index.e, score, daily[i])))
              && (r.Ok? && 1 <= topK <= 64 ==> BestOfDiary(index.e, score, m.days, daily, r.value, topK))
              && (r.Ok? && 1 <= topK <= 64 ==> IsTopK(r.value, CorpusHits(index.e, score, m, daily), topK))
              && (r.Ok? && 1 <= topK ==>
                    (IsTopK(r.value, CorpusHits(index.e, score, m, daily), topK) <==>
                     NoSegmentOverCap(index.e, score, m, index.disk, index.given, plans, topK)))
  {
    hide KeptLanes, IsTopK, CorpusHits, DayHits, SomeTextBad, SomeDayBad, NoSegmentOverCap, PlansOk, ByDate, Covers,
         SameVectors, Agrees, HashesOk, SyncStep, RanksLikeDiary, DigestsCanonicalText, RespectsCanonical, LastOf,
         Rankable, ChunkScore, BestOfDiary, BestDays;
    ghost var m0, disk0, given0 := index.manifest, index.disk, index.given;
    if DigestsCanonicalText(index.e) && RespectsCanonical(index.e) {
      AgreesDays(index.e, m0, disk0, given0);
      RespectedLanes(index.e, m0, disk0, given0, daily, force);
    }
    var worked := SyncOnce(index, daily, force);
    r := SearchLsm(index.e, index.manifest, index.disk, index.given, index.meta, score, topK, plans);
    if SameVectors(index.e, index.manifest, index.given, daily) {
      SameLanes(index.e, score, index.manifest, index.given, daily);
      TextBadMeaning(index.e, score, index.manifest, index.given, daily);
      if r.Ok? && 1 <= topK <= 64 {
        CorpusHitsInScores(index.e, score, index.manifest, index.given, daily, r.value, topK);
      }
    }
  }

  /** The code's own run for any two texts of a day with one canonical form, such as those
      of SpaceNotSeen: the second sync does nothing, the metadata file keeps the canonical
      form of the first, and the index ranks like the diary exactly when the embedder does
      not tell the two apart. */
  method IgnoredEdit(e: Embedder, a: Chunk, b: Chunk) returns (index: LsmStore.Index, worked: bool)
    requires DigestsCanonicalText(e) && a.date == b.date
    requires CanonicalizeText(Embedded(a)) == CanonicalizeText(Embedded(b))
    ensures !worked && fresh(index) && index.e == e && index.Valid()
    ensures index.manifest.days.Keys == {a.date} && index.manifest.days[a.date].chunkId in index.meta
    ensures index.meta[index.manifest.days[a.date].chunkId] == Stored(a)
    ensures RanksLikeDiary(e, State(index.manifest, index.given), [b]) <==> e.embed(Embedded(a)) == e.embed(Embedded(b))
  {
    hide Agrees, HashesOk, DayHits, CorpusHits, CanonicalizeText, Embedded, Stored, LastOf, ByDate,
         LsmStore.Index.Indexed, LsmStore.Index.ToEmbed;
    var d := a.date;
    OneDate(b);
    index := FirstDay(e, a);
    ghost var days := index.manifest.days;
    assert days[d].contentHash == e.hash(Embedded(b));
    assert ChangedDates(e, days, ByDate([b]), false) == {};
    worked := index.Sync([b], false);
    assert index.meta[days[d].chunkId] == Stored(a);
    AgreesDays(e, index.manifest, index.disk, index.given);
    SyncCovers(e, index.manifest, index.disk, index.given, [b]);
    DayHitsAreCorpusHits(e, index.manifest, index.given, [b]);
  }

  /** The empty index, synced with one chunk. */
  method FirstDay(e: Embedder, a: Chunk) returns (index: LsmStore.Index)
    ensures fresh(index) && index.e == e && index.Valid()
    ensures index.manifest.days.Keys == {a.date} && index.manifest.days[a.date].chunkId in index.given
    ensures index.manifest.days[a.date].contentHash == e.hash(Embedded(a))
    ensures index.given[index.manifest.days[a.date].chunkId] == a
  {
    hide Agrees, HashesOk, CanonicalizeText, Embedded, Stored, LastOf, ByDate, LsmStore.Index.Indexed,
         LsmStore.Index.ToEmbed;
    OneDate(a);
    index := new LsmStore.Index(e);
    assert a.date in ChangedDates(e, map[], ByDate([a]), false);
    var worked := index.Sync([a], false);
  }

  lemma OneDate(c: Chunk)
    ensures ByDate([c]) == map[c.date := c]
  {
    assert [c][..0] == [];
  }
}
