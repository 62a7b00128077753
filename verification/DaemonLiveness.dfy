/** What the search daemon protocol achieves: from every state in step a search can be served
    and returns its hits, and without timeouts none is refused. */
module DaemonLiveness {
  import opened DaemonProtocol

  /** A step of client or daemon that is not a timeout. */
  ghost predicate Working(e: Engine, s: State, t: State) {
    (ClientStep(s, t) && !TimeOut(s, t)) || DaemonStep(e, s, t)
  }

  ghost predicate WorkingRun(e: Engine, run: seq<State>) {
    run != [] && forall i :: 0 <= i < |run| - 1 ==> Working(e, run[i], run[i + 1])
  }

  /** Such steps lead from s to t. */
  ghost predicate LeadsTo(e: Engine, s: State, t: State) {
    exists run :: WorkingRun(e, run) && run[0] == s && run[|run| - 1] == t
  }

  lemma Stay(e: Engine, s: State)
    ensures LeadsTo(e, s, s)
  {
    assert WorkingRun(e, [s]);
  }

  lemma Extend(e: Engine, s: State, t: State, u: State)
    requires LeadsTo(e, s, t) && Working(e, t, u)
    ensures LeadsTo(e, s, u)
  {
    hide Working;
    var run :| WorkingRun(e, run) && run[0] == s && run[|run| - 1] == t;
    var longer := run + [u];
    forall i | 0 <= i < |longer| - 1 ensures Working(e, longer[i], longer[i + 1]) {
      if i < |run| - 1 { assert Working(e, run[i], run[i + 1]); }
    }
    assert WorkingRun(e, longer);
  }

  lemma Chain(e: Engine, s: State, t: State, u: State)
    requires LeadsTo(e, s, t) && LeadsTo(e, t, u)
    ensures LeadsTo(e, s, u)
  {
    hide Working;
    var a :| WorkingRun(e, a) && a[0] == s && a[|a| - 1] == t;
    var b :| WorkingRun(e, b) && b[0] == t && b[|b| - 1] == u;
    var run := a + b[1..];
    forall i | 0 <= i < |run| - 1 ensures Working(e, run[i], run[i + 1]) {
      if i < |a| - 1 {
        assert Working(e, a[i], a[i + 1]);
      } else {
        var j := i - (|a| - 1);
        assert run[i] == b[j] && run[i + 1] == b[j + 1];
        assert Working(e, b[j], b[j + 1]);
      }
    }
    assert WorkingRun(e, run);
  }

  // ------------------------------------------------------------ the client writes its call

  ghost function QueryWritten(s: State, c: Call, n: nat): State
    requires c.Search? && |s.scratch.query| == |c.query| && n <= |c.query|
  {
    s.(scratch := s.scratch.(query := c.query[..n] + s.scratch.query[n..]), client := WritingQuery(c, n))
  }

  lemma {:induction false} WritesQuery(e: Engine, s: State, c: Call, n: nat)
    requires c.Search? && |s.scratch.query| == |c.query| == DIM && n <= DIM
    requires s.client == WritingQuery(c, 0)
    ensures LeadsTo(e, s, QueryWritten(s, c, n))
  {
    hide LeadsTo;
    if n == 0 {
      assert QueryWritten(s, c, 0) == s by { assert c.query[..0] + s.scratch.query[0..] == s.scratch.query; }
      Stay(e, s);
    } else {
      WritesQuery(e, s, c, n - 1);
      var t, u := QueryWritten(s, c, n - 1), QueryWritten(s, c, n);
      assert t.scratch.query[n - 1 := c.query[n - 1]] == u.scratch.query;
      assert WriteWord(t, u);
      Extend(e, s, t, u);
    }
  }

  /** The call is in the scratch and its line in the pipe. */
  ghost function Sent(s: State, c: Call): State
    requires c.Search?
  {
    s.(seqNo := c.seqNo, scratch := Scratch(c.seqNo, c.k, s.scratch.count, c.query, s.scratch.results),
       requests := [SearchReq(c.seqNo, c.index)], client := Waiting(c))
  }

  lemma SendsCall(e: Engine, s: State, c: Call)
    requires c.Search? && c.seqNo == s.seqNo + 1 && |c.query| == DIM && 1 <= c.k <= SCRATCH_MAX_K
    requires s.client == Idle && s.requests == [] && |s.scratch.query| == DIM
    ensures LeadsTo(e, s, Sent(s, c))
  {
    hide LeadsTo;
    var begun := s.(seqNo := c.seqNo, client := WritingQuery(c, 0));
    Stay(e, s);
    assert BeginSearch(s, begun);
    Extend(e, s, s, begun);
    WritesQuery(e, begun, c, DIM);
    var written := QueryWritten(begun, c, DIM);
    assert written.scratch.query == c.query;
    Chain(e, s, begun, written);
    var topK := written.(client := WritingTopK(c));
    assert WriteWord(written, topK);
    Extend(e, s, written, topK);
    SendsRest(e, s, topK, c);
  }

  lemma SendsRest(e: Engine, s: State, topK: State, c: Call)
    requires c.Search? && LeadsTo(e, s, topK) && s.requests == []
    requires topK == s.(seqNo := c.seqNo, scratch := s.scratch.(query := c.query), client := WritingTopK(c))
    ensures LeadsTo(e, s, Sent(s, c))
  {
    hide LeadsTo;
    var seqNo := topK.(scratch := topK.scratch.(topK := c.k), client := WritingSeq(c));
    assert WriteTopK(topK, seqNo);
    Extend(e, s, topK, seqNo);
    var sending := seqNo.(scratch := seqNo.scratch.(seqNo := c.seqNo), client := Sending(c));
    assert WriteSeq(seqNo, sending);
    Extend(e, s, seqNo, sending);
    var sent := Sent(s, c);
    assert [] + [RequestOf(c)] == sent.requests;
    assert Send(sending, sent);
    Extend(e, s, sending, sent);
  }

  // ------------------------------------------------------------ the daemon serves it

  /** The version of the index that will be searched: the one mapped, else the one on disk. */
  ghost function VersionFor(s: State, p: Path): nat
    requires p in s.cache || p in s.disk
  {
    if p in s.cache then s.cache[p] else s.disk[p]
  }

  ghost function Copied(s: State, c: Call, n: nat): State
    requires c.Search? && n <= |c.query|
  {
    s.(daemon := Copying(RequestOf(c), c.k, c.query[..n]))
  }

  lemma {:induction false} CopiesQuery(e: Engine, s: State, c: Call, n: nat)
    requires c.Search? && |c.query| == DIM && s.scratch.query == c.query && n <= DIM
    requires s.daemon == Copying(RequestOf(c), c.k, [])
    ensures LeadsTo(e, s, Copied(s, c, n))
  {
    hide LeadsTo;
    if n == 0 {
      Stay(e, s);
    } else {
      CopiesQuery(e, s, c, n - 1);
      var t, u := Copied(s, c, n - 1), Copied(s, c, n);
      assert c.query[..n - 1] + [c.query[n - 1]] == c.query[..n];
      assert CopyWord(t, u);
      Extend(e, s, t, u);
    }
  }

  /** The request is taken, its number agrees, and the query is copied from the mapped index. */
  lemma TakesRequest(e: Engine, s: State, c: Call, copied: State)
    requires c.Search? && |c.query| == DIM && 1 <= c.k <= SCRATCH_MAX_K
    requires s.daemon == Resting && s.requests == [RequestOf(c)]
    requires s.scratch.seqNo == c.seqNo && s.scratch.topK == c.k && s.scratch.query == c.query
    requires c.index in s.cache || c.index in s.disk
    requires copied == s.(requests := [], cache := s.cache[c.index := VersionFor(s, c.index)],
                          daemon := Copying(RequestOf(c), c.k, c.query))
    ensures LeadsTo(e, s, copied)
  {
    hide LeadsTo;
    Stay(e, s);
    var received := s.(requests := [], daemon := Received(RequestOf(c)));
    assert s.requests[1..] == [];
    assert Receive(s, received);
    Extend(e, s, s, received);
    var checked := received.(daemon := Checked(RequestOf(c)));
    assert CheckSeq(received, checked);
    Extend(e, s, received, checked);
    var mapped := checked.(cache := s.cache[c.index := VersionFor(s, c.index)],
                           daemon := Copying(RequestOf(c), c.k, []));
    if c.index in s.cache { assert s.cache[c.index := s.cache[c.index]] == s.cache; }
    assert MapIndex(checked, mapped);
    Extend(e, s, checked, mapped);
    CopiesQuery(e, mapped, c, DIM);
    assert c.query[..DIM] == c.query;
    assert Copied(mapped, c, DIM) == copied;
    Chain(e, s, mapped, copied);
  }

  ghost function Cleared(s: State, c: Call, hits: seq<Hit>, n: nat): State
    requires n <= |s.scratch.results|
  {
    s.(scratch := s.scratch.(results := seq(n, _ => (-1, 0.0)) + s.scratch.results[n..]),
       daemon := Clearing(RequestOf(c), hits, n))
  }

  lemma {:induction false} ClearsSlots(e: Engine, s: State, c: Call, hits: seq<Hit>, n: nat)
    requires |s.scratch.results| == SCRATCH_MAX_K && n <= SCRATCH_MAX_K
    requires s.daemon == Clearing(RequestOf(c), hits, 0)
    ensures LeadsTo(e, s, Cleared(s, c, hits, n))
  {
    hide LeadsTo;
    if n == 0 {
      assert seq<Hit>(0, _ => (-1, 0.0)) + s.scratch.results[0..] == s.scratch.results;
      Stay(e, s);
    } else {
      ClearsSlots(e, s, c, hits, n - 1);
      var t, u := Cleared(s, c, hits, n - 1), Cleared(s, c, hits, n);
      assert t.scratch.results[n - 1 := (-1, 0.0)] == u.scratch.results;
      assert ClearSlot(t, u);
      Extend(e, s, t, u);
    }
  }

  ghost function Listed(s: State, c: Call, hits: seq<Hit>, n: nat): State
    requires n <= |hits| <= |s.scratch.results|
  {
    s.(scratch := s.scratch.(results := hits[..n] + s.scratch.results[n..]),
       daemon := Listing(RequestOf(c), hits, n))
  }

  lemma {:induction false} ListsHits(e: Engine, s: State, c: Call, hits: seq<Hit>, n: nat)
    requires n <= |hits| <= |s.scratch.results|
    requires s.daemon == Listing(RequestOf(c), hits, 0)
    ensures LeadsTo(e, s, Listed(s, c, hits, n))
  {
    hide LeadsTo;
    if n == 0 {
      assert hits[..0] + s.scratch.results[0..] == s.scratch.results;
      Stay(e, s);
    } else {
      ListsHits(e, s, c, hits, n - 1);
      var t, u := Listed(s, c, hits, n - 1), Listed(s, c, hits, n);
      assert t.scratch.results[n - 1 := hits[n - 1]] == u.scratch.results;
      assert ListHit(t, u);
      Extend(e, s, t, u);
    }
  }

  /** The hits are in the scratch and the line that says so is in the pipe. */
  ghost predicate Served(s: State, c: Call, hits: seq<Hit>)
    requires c.Search?
  {
    && s.client == Waiting(c) && s.daemon == Resting && s.requests == []
    && s.replies == [SearchOk(c.seqNo, |hits|)]
    && s.scratch.count == |hits| <= |s.scratch.results| && s.scratch.results[..|hits|] == hits
  }

  lemma Serves(e: Engine, s: State, c: Call, hits: seq<Hit>) returns (t: State)
    requires c.Search? && s.daemon.Copying? && s.daemon.req == RequestOf(c) && s.daemon.k == c.k
    requires s.client == Waiting(c) && s.requests == [] && s.replies == []
    requires |c.query| == DIM && s.daemon.copy == c.query && c.index in s.cache
    requires e.answer(c.index, s.cache[c.index], c.query, c.k) == Hits(hits)
    requires |hits| <= SCRATCH_MAX_K == |s.scratch.results|
    ensures LeadsTo(e, s, t) && Served(t, c, hits)
  {
    hide LeadsTo;
    var clearing := s.(daemon := Clearing(RequestOf(c), hits, 0));
    Stay(e, s);
    assert Compute(e, s, clearing);
    Extend(e, s, s, clearing);
    ClearsSlots(e, clearing, c, hits, SCRATCH_MAX_K);
    var cleared := Cleared(clearing, c, hits, SCRATCH_MAX_K);
    Chain(e, s, clearing, cleared);
    var listing := cleared.(daemon := Listing(RequestOf(c), hits, 0));
    assert ClearSlot(cleared, listing);
    Extend(e, s, cleared, listing);
    ListsHits(e, listing, c, hits, |hits|);
    var listed := Listed(listing, c, hits, |hits|);
    assert hits[..|hits|] == hits;
    assert listed.scratch.results[..|hits|] == hits;
    Chain(e, s, listing, listed);
    t := Reports(e, s, listed, c, hits);
  }

  lemma Reports(e: Engine, s: State, listed: State, c: Call, hits: seq<Hit>) returns (t: State)
    requires c.Search? && LeadsTo(e, s, listed) && listed.daemon == Listing(RequestOf(c), hits, |hits|)
    requires listed.client == Waiting(c) && listed.requests == [] && listed.replies == []
    requires |hits| <= |listed.scratch.results| && listed.scratch.results[..|hits|] == hits
    ensures LeadsTo(e, s, t) && Served(t, c, hits)
  {
    hide LeadsTo;
    var counting := listed.(daemon := Counting(RequestOf(c), hits));
    assert ListHit(listed, counting);
    Extend(e, s, listed, counting);
    var answering := counting.(scratch := counting.scratch.(count := |hits|),
                               daemon := Answering(RequestOf(c), SearchOk(c.seqNo, |hits|)));
    assert WriteCount(counting, answering);
    Extend(e, s, counting, answering);
    t := answering.(replies := [SearchOk(c.seqNo, |hits|)], daemon := Resting);
    assert [] + [SearchOk(c.seqNo, |hits|)] == t.replies;
    assert Answer(answering, t);
    Extend(e, s, answering, t);
  }

  // ------------------------------------------------------------ the client reads the answer

  ghost function Read(s: State, c: Call, hits: seq<Hit>, n: nat): State
    requires n <= |hits|
  {
    s.(replies := [], client := Reading(c, |hits|, hits[..n]))
  }

  lemma {:induction false} ReadsSlots(e: Engine, s: State, c: Call, hits: seq<Hit>, n: nat)
    requires c.Search? && Served(s, c, hits) && |hits| <= c.k && n <= |hits|
    ensures LeadsTo(e, s, Read(s, c, hits, n))
  {
    hide LeadsTo;
    if n == 0 {
      Stay(e, s);
      var replied := s.(replies := [], client := Replied(c));
      assert s.replies[1..] == [];
      assert TakeSearchReply(s, replied);
      Extend(e, s, s, replied);
      var t := Read(s, c, hits, 0);
      assert ReadCount(replied, t);
      Extend(e, s, replied, t);
    } else {
      ReadsSlots(e, s, c, hits, n - 1);
      var t, u := Read(s, c, hits, n - 1), Read(s, c, hits, n);
      assert s.scratch.results[..|hits|][n - 1] == hits[n - 1];
      assert hits[..n - 1] + [hits[n - 1]] == hits[..n];
      assert ReadSlot(t, u);
      Extend(e, s, t, u);
    }
  }

  lemma NothingPending(s: State)
    requires Outstanding(s) == 0 && s.client == Idle
    ensures s.replies == [] && s.requests == [] && s.daemon == Resting
  {
    PendingSize(s);
    hide Pending;
  }

  /** In step and idle: for every query, top_k and index that is mapped or on disk, if the
      engine answers with hits there is a run of client and daemon in which this search returns
      exactly these hits. */
  lemma SearchSucceeds(e: Engine, s: State, query: seq<int>, k: nat, p: Path, hits: seq<Hit>) returns (run: seq<State>)
    requires EngineOk(e) && Inv(e, s) && Outstanding(s) == 0 && s.client == Idle
    requires |query| == 384 && 1 <= k <= 64 && (p in s.cache || p in s.disk)
    requires e.answer(p, if p in s.cache then s.cache[p] else s.disk[p], query, k) == Hits(hits)
    ensures WorkingRun(e, run) && run[0] == s
    ensures var t := run[|run| - 1];
            Returns(t) && t.client.call == Search(s.seqNo + 1, query, k, p) && Returned(t.client.got) == hits
  {
    var c := Search(s.seqNo + 1, query, k, p);
    var copied := Starts(e, s, c);
    assert |hits| <= k && forall h :: h in hits ==> h.0 >= 0;
    ReturnedAll(hits);
    hide Inv, Outstanding, Working, WorkingRun, EngineOk, LeadsTo;
    var served := Serves(e, copied, c, hits);
    ReadsSlots(e, served, c, hits, |hits|);
    assert hits[..|hits|] == hits;
    var t := Read(served, c, hits, |hits|);
    Chain(e, s, copied, served);
    Chain(e, s, served, t);
    run := RunOf(e, s, t);
  }

  lemma RunOf(e: Engine, s: State, t: State) returns (run: seq<State>)
    requires LeadsTo(e, s, t)
    ensures WorkingRun(e, run) && run[0] == s && run[|run| - 1] == t
  {
    run :| WorkingRun(e, run) && run[0] == s && run[|run| - 1] == t;
  }

  lemma Starts(e: Engine, s: State, c: Call) returns (copied: State)
    requires Inv(e, s) && Outstanding(s) == 0 && s.client == Idle
    requires c.Search? && c.seqNo == s.seqNo + 1 && |c.query| == DIM && 1 <= c.k <= SCRATCH_MAX_K
    requires c.index in s.cache || c.index in s.disk
    ensures LeadsTo(e, s, copied)
    ensures copied.daemon == Copying(RequestOf(c), c.k, c.query) && copied.client == Waiting(c)
    ensures copied.requests == [] && copied.replies == [] && c.index in copied.cache
    ensures copied.cache[c.index] == VersionFor(s, c.index) && |copied.scratch.results| == SCRATCH_MAX_K
  {
    NothingPending(s);
    assert SizesOk(s.scratch);
    hide Inv, Outstanding, LeadsTo;
    SendsCall(e, s, c);
    var sent := Sent(s, c);
    copied := sent.(requests := [], cache := s.cache[c.index := VersionFor(s, c.index)],
                    daemon := Copying(RequestOf(c), c.k, c.query));
    TakesRequest(e, sent, c, copied);
    Chain(e, s, sent, copied);
  }

  // ------------------------------------------------------------ without timeouts

  /** No call has timed out before the n-th state. */
  ghost predicate NoTimeOut(run: seq<State>, n: nat) {
    forall i :: 0 <= i < n && i < |run| - 1 ==> !TimeOut(run[i], run[i + 1])
  }

  lemma {:induction false} StaysInStep(e: Engine, run: seq<State>, n: nat)
    requires EngineOk(e) && Run(e, run) && n < |run| && NoTimeOut(run, n)
    ensures Inv(e, run[n]) && Outstanding(run[n]) == 0
  {
    RunInv(e, run, n);
    if n > 0 {
      hide Inv, Outstanding, EngineOk, Next, TimeOut, Init;
      StaysInStep(e, run, n - 1);
      assert Next(e, run[n - 1], run[n - 1 + 1]) && !TimeOut(run[n - 1], run[n - 1 + 1]);
      OutstandingNeverDrops(e, run[n - 1], run[n]);
    } else {
      PendingSize(run[0]);
    }
  }

  /** Then the sequence check never refuses a request. */
  lemma NeverRefused(e: Engine, run: seq<State>, n: nat)
    requires EngineOk(e) && Run(e, run) && n + 1 < |run| && NoTimeOut(run, n)
    requires CheckSeq(run[n], run[n + 1])
    ensures run[n].scratch.seqNo == run[n].daemon.req.seqNo
    ensures run[n + 1].daemon == Checked(run[n].daemon.req)
  {
    StaysInStep(e, run, n);
    SameNumber(e, run[n]);
  }

  lemma SameNumber(e: Engine, s: State)
    requires Inv(e, s) && Outstanding(s) == 0 && s.daemon.Received? && s.daemon.req.SearchReq?
    ensures s.scratch.seqNo == s.daemon.req.seqNo
  {
    Alone(s);
    hide Pending, Delivered, CacheFresh;
  }

  /** Mapping the index for the waiting call c fails. */
  ghost predicate MapFails(s: State, t: State, c: Call) {
    s.client == Waiting(c) && MapIndex(s, t) && t.daemon.Answering?
  }

  /** The engine fails on exactly what the waiting call c asked for. */
  ghost predicate EngineFails(e: Engine, s: State, t: State, c: Call) {
    && s.client == Waiting(c) && c.Search? && Compute(e, s, t)
    && c.index in s.cache && e.answer(c.index, s.cache[c.index], c.query, c.k) == SearchFailed
  }

  ghost predicate FailedBefore(e: Engine, run: seq<State>, n: nat, c: Call) {
    exists i :: 0 <= i < n && i < |run| - 1
                && (MapFails(run[i], run[i + 1], c) || EngineFails(e, run[i], run[i + 1], c))
  }

  /** An error line, being written or in the pipe, comes from such a failure. */
  ghost predicate ErrorsExplained(e: Engine, run: seq<State>, n: nat)
    requires n < |run|
  {
    ErrorLine(run[n]) ==> run[n].client.Waiting? && FailedBefore(e, run, n, run[n].client.call)
  }

  lemma FailedStays(e: Engine, run: seq<State>, n: nat, c: Call)
    requires FailedBefore(e, run, n, c)
    ensures FailedBefore(e, run, n + 1, c)
  {
    hide MapFails, EngineFails;
  }

  ghost predicate ErrorLine(s: State) {
    (s.daemon.Answering? && s.daemon.reply.SearchError?) || (s.replies != [] && s.replies[0].SearchError?)
  }

  /** What a step can do about error lines while client and daemon are in step. */
  lemma ErrorStep(e: Engine, s: State, t: State)
    requires Inv(e, s) && Outstanding(s) == 0 && Next(e, s, t) && !TimeOut(s, t) && ErrorLine(t)
    ensures s.client.Waiting? && t.client == s.client
    ensures ErrorLine(s) || MapFails(s, t, s.client.call) || EngineFails(e, s, t, s.client.call)
  {
    Alone(s);
    hide Inv, Outstanding, BeginSearch, BeginRemap, BeginPing, WriteWord, WriteTopK, WriteSeq, Send, TimeOut,
      TakeSearchReply, TakeSimpleReply, ReadCount, ReadSlot, Return, Receive, ServeSimple, CheckSeq, MapIndex,
      CopyWord, Compute, ClearSlot, ListHit, WriteCount, Answer, Rebuild, EditInPlace;
    if ClientStep(s, t) {
      ClientErrors(s, t);
    } else if DaemonStep(e, s, t) {
      DaemonErrors(e, s, t);
    } else {
      var p :| Rebuild(s, t, p) || EditInPlace(s, t, p);
      FileErrors(s, t, p);
    }
  }

  ghost predicate AloneOf(s: State) {
    && (!s.daemon.Resting? ==> s.client.Waiting? && s.replies == [] && s.requests == [])
    && (s.replies != [] ==> s.client.Waiting? && s.requests == [] && s.daemon.Resting? && |s.replies| == 1)
  }

  lemma ClientErrors(s: State, t: State)
    requires AloneOf(s) && ClientStep(s, t) && !TimeOut(s, t)
    ensures !ErrorLine(t)
  {
  }

  lemma FileErrors(s: State, t: State, p: Path)
    requires AloneOf(s) && (Rebuild(s, t, p) || EditInPlace(s, t, p)) && ErrorLine(t)
    ensures s.client.Waiting? && t.client == s.client && ErrorLine(s)
  {
  }

  lemma DaemonErrors(e: Engine, s: State, t: State)
    requires Inv(e, s) && Outstanding(s) == 0 && AloneOf(s) && DaemonStep(e, s, t) && ErrorLine(t)
    ensures s.client.Waiting? && t.client == s.client
    ensures ErrorLine(s) || MapFails(s, t, s.client.call) || EngineFails(e, s, t, s.client.call)
  {
    hide Inv, Outstanding;
    if CheckSeq(s, t) {
      SameNumber(e, s);
    } else if Compute(e, s, t) {
      ComputesCall(e, s);
    } else if MapIndex(s, t) {
    } else {
    }
  }

  lemma ComputesCall(e: Engine, s: State)
    requires Inv(e, s) && Outstanding(s) == 0 && s.daemon.Copying? && |s.daemon.copy| == DIM
    ensures s.client.Waiting? && s.client.call.Search? && s.daemon.req == RequestOf(s.client.call)
    ensures s.daemon.copy == s.client.call.query && s.daemon.k == s.client.call.k
  {
    Alone(s);
    assert DaemonKind(s.daemon);
    hide Pending, Delivered, CacheFresh, VersionsOk;
  }

  lemma {:induction false} ErrorsHaveCause(e: Engine, run: seq<State>, n: nat)
    requires EngineOk(e) && Run(e, run) && n < |run| && NoTimeOut(run, n)
    ensures ErrorsExplained(e, run, n)
  {
    if n > 0 {
      hide Inv, Outstanding, EngineOk, Next, TimeOut, Init, MapFails, EngineFails;
      StaysInStep(e, run, n - 1);
      ErrorsHaveCause(e, run, n - 1);
      var s, t := run[n - 1], run[n];
      assert Next(e, run[n - 1], run[n - 1 + 1]) && !TimeOut(run[n - 1], run[n - 1 + 1]);
      if ErrorLine(t) {
        ErrorStep(e, s, t);
        if ErrorLine(s) {
          FailedStays(e, run, n - 1, s.client.call);
        } else {
          assert MapFails(run[n - 1], run[n - 1 + 1], s.client.call)
                 || EngineFails(e, run[n - 1], run[n - 1 + 1], s.client.call);
        }
      }
    }
  }

  /** The line a search reads, in step, is its own: its answer or its error. */
  lemma OwnLine(e: Engine, s: State)
    requires Inv(e, s) && Outstanding(s) == 0 && s.client.Waiting? && s.client.call.Search? && s.replies != []
    ensures var r := s.replies[0];
            (r.SearchOk? || r.SearchError?) && r.seqNo == s.client.call.seqNo
  {
    Alone(s);
    assert ReplyTags(s.replies) == [ReplyTag(s.replies[0])];
    assert Pending(s) == [ReplyTag(s.replies[0])];
    hide InStep;
  }

  /** Then a search raises only when mapping its index or the engine itself has failed for it. */
  lemma RaisesOnlyOnFailure(e: Engine, run: seq<State>, n: nat)
    requires EngineOk(e) && Run(e, run) && n + 1 < |run| && NoTimeOut(run, n)
    requires TakeSearchReply(run[n], run[n + 1]) && run[n + 1].client == Idle
    ensures FailedBefore(e, run, n, run[n].client.call)
  {
    hide EngineOk, Run, NoTimeOut, FailedBefore, Inv, Outstanding;
    StaysInStep(e, run, n);
    ErrorsHaveCause(e, run, n);
    OwnLine(e, run[n]);
  }

  // ------------------------------------------------------------ after a remap

  lemma PromisedGrows(e: Engine, s: State, t: State, p: Path)
    requires Next(e, s, t)
    ensures Promised(t.promised, p) >= Promised(s.promised, p)
  {
    hide ClientStep, DaemonStep;
    if ClientStep(s, t) {
      ClientPromises(s, t, p);
    } else if DaemonStep(e, s, t) {
      DaemonPromises(e, s, t);
    } else {
      var q :| Rebuild(s, t, q) || EditInPlace(s, t, q);
    }
  }

  lemma ClientPromises(s: State, t: State, p: Path)
    requires ClientStep(s, t)
    ensures Promised(t.promised, p) >= Promised(s.promised, p)
  {
  }

  lemma DaemonPromises(e: Engine, s: State, t: State)
    requires DaemonStep(e, s, t)
    ensures t.promised == s.promised
  {
  }

  lemma {:induction false} PromisedStays(e: Engine, run: seq<State>, i: nat, n: nat, p: Path)
    requires Run(e, run) && i <= n < |run|
    ensures Promised(run[n].promised, p) >= Promised(run[i].promised, p)
    decreases n
  {
    hide Next, Init;
    if i < n {
      PromisedStays(e, run, i, n - 1, p);
      assert Next(e, run[n - 1], run[n - 1 + 1]);
      PromisedGrows(e, run[n - 1], run[n], p);
    }
  }

  /** Once a remap has read an ok line, every later search of that index that returns was
      answered from a version no older than the one on disk when the remap began. */
  lemma FreshAfterRemap(e: Engine, run: seq<State>, began: nat, i: nat, n: nat)
    requires EngineOk(e) && Run(e, run) && began < i < n < |run| && BeginRemap(run[began], run[began + 1])
    requires run[i].client == Waiting(run[began + 1].client.call) && run[i + 1].client == Idle
    requires run[i].replies != [] && run[i].replies[0].SimpleOk? && TakeSimpleReply(run[i], run[i + 1])
    requires Returns(run[n]) && run[n].client.call.Search?
    requires run[n].client.call.index == run[began + 1].client.call.index
    ensures var c := run[n].client.call;
            exists v: nat :: e.answer(c.index, v, c.query, c.k) == Hits(Returned(run[n].client.got))
                && (c.index in run[began].disk ==> v >= run[began].disk[c.index])
  {
    hide EngineOk, Pending;
    ReturnedHitsAreOurs(e, run, n);
    var s, c := run[n], run[n].client.call;
    PromisedStays(e, run, i + 1, n, c.index);
    hide Run, Returns, TakeSimpleReply, IsOk;
    assert Promised(run[i + 1].promised, c.index) >= run[i].client.call.floor by { Promises(run[i], run[i + 1]); }
    var v: nat :| Promised(s.promised, c.index) <= v <= s.clock
        && e.answer(c.index, v, c.query, c.k) == Hits(Returned(s.client.got));
  }

  lemma Promises(s: State, t: State)
    requires TakeSimpleReply(s, t) && s.client.call.Remap? && s.replies[0].SimpleOk?
    ensures Promised(t.promised, s.client.call.index) >= s.client.call.floor
  {
  }
}
