/** The search daemon protocol of search_daemon.py and the daemon half of
    search_engine.cpp, as a state machine: one client call at a time (the lock),
    a single-threaded daemon, a shared scratch buffer and two FIFO pipes.
    Each memory write or copy of one scratch field or word is a step of its own. */
module DaemonProtocol {

  const DIM := 384
  const SCRATCH_MAX_K := 64

  type Path = string
  type Hit = (int, real)

  datatype Outcome = Hits(hits: seq<Hit>) | SearchFailed

  /** search() on the index content of a version: it lists at most k live ids. */
  datatype Engine = Engine(answer: (Path, nat, seq<int>, nat) -> Outcome)

  ghost predicate EngineOk(e: Engine) {
    forall p: Path, v: nat, q: seq<int>, k: nat :: e.answer(p, v, q, k).Hits? ==>
      |e.answer(p, v, q, k).hits| <= k && forall h :: h in e.answer(p, v, q, k).hits ==> h.0 >= 0
  }

  // ------------------------------------------------------------ state

  /** ScratchBuffer. */
  datatype Scratch = Scratch(seqNo: nat, topK: nat, count: nat, query: seq<int>, results: seq<Hit>)

  datatype Request = SearchReq(seqNo: nat, index: Path) | RemapReq(index: Path) | PingReq

  datatype Reply = SearchOk(seqNo: nat, count: nat) | SearchError(seqNo: nat) | SimpleOk | SimpleError

  /** What a call asked for; floor is the index version on disk when a remap began. */
  datatype Call = Search(seqNo: nat, query: seq<int>, k: nat, index: Path) | Remap(index: Path, floor: nat) | Ping

  datatype Client =
    | Idle
    | WritingQuery(call: Call, at: nat)
    | WritingTopK(call: Call)
    | WritingSeq(call: Call)
    | Sending(call: Call)
    | Waiting(call: Call)
    | Replied(call: Call)
    | Reading(call: Call, upto: nat, got: seq<Hit>)

  datatype Daemon =
    | Resting
    | Received(req: Request)
    | Checked(req: Request)
    | Copying(req: Request, k: nat, copy: seq<int>)
    | Clearing(req: Request, hits: seq<Hit>, at: nat)
    | Listing(req: Request, hits: seq<Hit>, at: nat)
    | Counting(req: Request, hits: seq<Hit>)
    | Answering(req: Request, reply: Reply)

  /** disk and cache give the version of each index file, on disk and as the
      daemon has it mapped; clock numbers the versions; promised records, for each
      index, the latest version a successful remap has promised. */
  datatype State = State(seqNo: nat, client: Client, scratch: Scratch,
                         requests: seq<Request>, daemon: Daemon, replies: seq<Reply>,
                         disk: map<Path, nat>, cache: map<Path, nat>, clock: nat, promised: map<Path, nat>)

  ghost predicate Init(s: State) {
    && s.seqNo == 0 && s.client == Idle && s.requests == [] && s.daemon == Resting && s.replies == []
    && |s.scratch.query| == DIM && |s.scratch.results| == SCRATCH_MAX_K
    && s.cache == map[] && s.promised == map[] && forall p :: p in s.disk ==> s.disk[p] <= s.clock
  }

  function DiskVersion(s: State, p: Path): nat {
    if p in s.disk then s.disk[p] else 0
  }

  // ------------------------------------------------------------ client steps

  /** search: _seq goes up and the query words are written one by one. */
  ghost predicate BeginSearch(s: State, t: State) {
    s.client == Idle && t.client.WritingQuery? && t.client.call.Search? && t.client.at == 0
    && t.client.call.seqNo == s.seqNo + 1 && |t.client.call.query| == DIM && 1 <= t.client.call.k <= SCRATCH_MAX_K
    && t == s.(seqNo := s.seqNo + 1, client := t.client)
  }

  ghost predicate BeginRemap(s: State, t: State) {
    s.client == Idle && t.client.Sending? && t.client.call.Remap?
    && t.client.call.floor == DiskVersion(s, t.client.call.index)
    && t == s.(client := t.client)
  }

  ghost predicate BeginPing(s: State, t: State) {
    s.client == Idle && t == s.(client := Sending(Ping))
  }

  ghost predicate WriteWord(s: State, t: State) {
    s.client.WritingQuery? && s.client.call.Search?
    && if s.client.at < DIM then
         s.client.at < |s.scratch.query| && s.client.at < |s.client.call.query|
         && t == s.(scratch := s.scratch.(query := s.scratch.query[s.client.at := s.client.call.query[s.client.at]]),
                    client := WritingQuery(s.client.call, s.client.at + 1))
       else t == s.(client := WritingTopK(s.client.call))
  }

  ghost predicate WriteTopK(s: State, t: State) {
    s.client.WritingTopK? && s.client.call.Search?
    && t == s.(scratch := s.scratch.(topK := s.client.call.k), client := WritingSeq(s.client.call))
  }

  ghost predicate WriteSeq(s: State, t: State) {
    s.client.WritingSeq? && s.client.call.Search?
    && t == s.(scratch := s.scratch.(seqNo := s.client.call.seqNo), client := Sending(s.client.call))
  }

  function RequestOf(call: Call): Request {
    match call
    case Search(n, _, _, p) => SearchReq(n, p)
    case Remap(p, _) => RemapReq(p)
    case Ping => PingReq
  }

  ghost predicate Send(s: State, t: State) {
    s.client.Sending? && t == s.(requests := s.requests + [RequestOf(s.client.call)], client := Waiting(s.client.call))
  }

  /** _next_line times out: the call raises, its reply stays in the pipe or to come. */
  ghost predicate TimeOut(s: State, t: State) {
    s.client.Waiting? && t == s.(client := Idle)
  }

  predicate IsOk(r: Reply) { r.SearchOk? || r.SimpleOk? }

  /** A search reads the next line: anything but ok under its own seq raises. */
  ghost predicate TakeSearchReply(s: State, t: State) {
    s.client.Waiting? && s.client.call.Search? && s.replies != []
    && var r := s.replies[0];
       var after := if r.SearchOk? && r.seqNo == s.client.call.seqNo then Replied(s.client.call) else Idle;
       t == s.(replies := s.replies[1..], client := after)
  }

  /** The version promised for p is now v, unless a later one was promised before. */
  function Keep(promised: map<Path, nat>, p: Path, v: nat): map<Path, nat> {
    promised[p := if p in promised && promised[p] > v then promised[p] else v]
  }

  /** A remap or ping takes any ok line for its own; an ok remap promises the
      version that was on disk when it began. */
  ghost predicate TakeSimpleReply(s: State, t: State) {
    s.client.Waiting? && !s.client.call.Search? && s.replies != []
    && var call := s.client.call;
       var kept := if call.Remap? && IsOk(s.replies[0]) then Keep(s.promised, call.index, call.floor) else s.promised;
       t == s.(replies := s.replies[1..], client := Idle, promised := kept)
  }

  /** result_count is read, never beyond the top_k asked for. */
  ghost predicate ReadCount(s: State, t: State) {
    s.client.Replied? && s.client.call.Search?
    && t == s.(client := Reading(s.client.call,
                                  if s.scratch.count < s.client.call.k then s.scratch.count else s.client.call.k, []))
  }

  /** One result slot; slots with a negative id are skipped. */
  ghost predicate ReadSlot(s: State, t: State) {
    s.client.Reading? && |s.client.got| < s.client.upto && s.client.upto <= |s.scratch.results|
    && t == s.(client := Reading(s.client.call, s.client.upto, s.client.got + [s.scratch.results[|s.client.got|]]))
  }

  /** The call returns what it read. */
  ghost predicate Return(s: State, t: State) {
    Returns(s) && t == s.(client := Idle)
  }

  ghost predicate Returns(s: State) {
    s.client.Reading? && |s.client.got| == s.client.upto
  }

  /** The list search() hands back: slots with a negative id are dropped. */
  function Returned(got: seq<Hit>): seq<Hit> {
    if got == [] then []
    else (if got[0].0 >= 0 then [got[0]] else []) + Returned(got[1..])
  }

  // ------------------------------------------------------------ daemon steps

  ghost predicate Receive(s: State, t: State) {
    s.daemon == Resting && s.requests != []
    && t == s.(requests := s.requests[1..], daemon := Received(s.requests[0]))
  }

  /** ping and remap. */
  ghost predicate ServeSimple(s: State, t: State) {
    s.daemon.Received? && !s.daemon.req.SearchReq?
    && t == s.(cache := if s.daemon.req.RemapReq? then s.cache - {s.daemon.req.index} else s.cache,
               daemon := Answering(s.daemon.req, SimpleOk))
  }

  /** The sequence check. */
  ghost predicate CheckSeq(s: State, t: State) {
    s.daemon.Received? && s.daemon.req.SearchReq?
    && t == s.(daemon := if s.scratch.seqNo == s.daemon.req.seqNo then Checked(s.daemon.req)
                         else Answering(s.daemon.req, SearchError(s.daemon.req.seqNo)))
  }

  /** top_k is read and clamped, the index is mapped if it is not yet; both can fail. */
  ghost predicate MapIndex(s: State, t: State) {
    s.daemon.Checked? && s.daemon.req.SearchReq?
    && var p := s.daemon.req.index;
       var k := if s.scratch.topK > SCRATCH_MAX_K then SCRATCH_MAX_K else s.scratch.topK;
       || t == s.(daemon := Answering(s.daemon.req, SearchError(s.daemon.req.seqNo)))
       || (k > 0 && p in s.cache && t == s.(daemon := Copying(s.daemon.req, k, [])))
       || (k > 0 && p !in s.cache && p in s.disk
           && t == s.(cache := s.cache[p := s.disk[p]], daemon := Copying(s.daemon.req, k, [])))
  }

  ghost predicate CopyWord(s: State, t: State) {
    s.daemon.Copying? && |s.daemon.copy| < DIM && |s.daemon.copy| < |s.scratch.query|
    && t == s.(daemon := Copying(s.daemon.req, s.daemon.k, s.daemon.copy + [s.scratch.query[|s.daemon.copy|]]))
  }

  /** search() on the local copy. */
  ghost predicate Compute(e: Engine, s: State, t: State) {
    s.daemon.Copying? && s.daemon.req.SearchReq? && |s.daemon.copy| == DIM && s.daemon.req.index in s.cache
    && var o := e.answer(s.daemon.req.index, s.cache[s.daemon.req.index], s.daemon.copy, s.daemon.k);
       t == s.(daemon := if o.Hits? then Clearing(s.daemon.req, o.hits, 0)
                         else Answering(s.daemon.req, SearchError(s.daemon.req.seqNo)))
  }

  ghost predicate ClearSlot(s: State, t: State) {
    s.daemon.Clearing?
    && if s.daemon.at < SCRATCH_MAX_K then
         s.daemon.at < |s.scratch.results|
         && t == s.(scratch := s.scratch.(results := s.scratch.results[s.daemon.at := (-1, 0.0)]),
                    daemon := Clearing(s.daemon.req, s.daemon.hits, s.daemon.at + 1))
       else t == s.(daemon := Listing(s.daemon.req, s.daemon.hits, 0))
  }

  ghost predicate ListHit(s: State, t: State) {
    s.daemon.Listing?
    && if s.daemon.at < |s.daemon.hits| then
         s.daemon.at < |s.scratch.results|
         && t == s.(scratch := s.scratch.(results := s.scratch.results[s.daemon.at := s.daemon.hits[s.daemon.at]]),
                    daemon := Listing(s.daemon.req, s.daemon.hits, s.daemon.at + 1))
       else t == s.(daemon := Counting(s.daemon.req, s.daemon.hits))
  }

  ghost predicate WriteCount(s: State, t: State) {
    s.daemon.Counting? && s.daemon.req.SearchReq?
    && t == s.(scratch := s.scratch.(count := |s.daemon.hits|),
               daemon := Answering(s.daemon.req, SearchOk(s.daemon.req.seqNo, |s.daemon.hits|)))
  }

  ghost predicate Answer(s: State, t: State) {
    s.daemon.Answering? && t == s.(replies := s.replies + [s.daemon.reply], daemon := Resting)
  }

  // ------------------------------------------------------------ the index files

  /** Someone writes a new version of an index file, or removes it. */
  ghost predicate Rebuild(s: State, t: State, p: Path) {
    || t == s.(disk := s.disk[p := s.clock + 1], clock := s.clock + 1)
    || t == s.(disk := s.disk - {p})
  }

  /** An in-place edit, which a live mapping may show. */
  ghost predicate EditInPlace(s: State, t: State, p: Path) {
    && p in s.disk && p in s.cache
    && t == s.(disk := s.disk[p := s.clock + 1], cache := s.cache[p := s.clock + 1], clock := s.clock + 1)
  }

  ghost predicate ClientStep(s: State, t: State) {
    || BeginSearch(s, t) || BeginRemap(s, t) || BeginPing(s, t) || WriteWord(s, t) || WriteTopK(s, t)
    || WriteSeq(s, t) || Send(s, t) || TimeOut(s, t) || TakeSearchReply(s, t) || TakeSimpleReply(s, t)
    || ReadCount(s, t) || ReadSlot(s, t) || Return(s, t)
  }

  ghost predicate DaemonStep(e: Engine, s: State, t: State) {
    || Receive(s, t) || ServeSimple(s, t) || CheckSeq(s, t) || MapIndex(s, t) || CopyWord(s, t)
    || Compute(e, s, t) || ClearSlot(s, t) || ListHit(s, t) || WriteCount(s, t) || Answer(s, t)
  }

  ghost predicate FileStep(s: State, t: State) {
    exists p :: Rebuild(s, t, p) || EditInPlace(s, t, p)
  }

  ghost predicate Next(e: Engine, s: State, t: State) {
    ClientStep(s, t) || DaemonStep(e, s, t) || FileStep(s, t)
  }

  ghost predicate Run(e: Engine, run: seq<State>) {
    && run != [] && Init(run[0])
    && forall i :: 0 <= i < |run| - 1 ==> Next(e, run[i], run[i + 1])
  }

  // ------------------------------------------------------------ what every run keeps

  /** The sequence number of a request or reply, 0 for remap and ping. */
  function ReqTag(r: Request): nat { if r.SearchReq? then r.seqNo else 0 }

  function ReplyTag(r: Reply): nat { if r.SearchOk? || r.SearchError? then r.seqNo else 0 }

  ghost function ReqTags(rs: seq<Request>): seq<nat> { seq(|rs|, i requires 0 <= i < |rs| => ReqTag(rs[i])) }

  ghost function ReplyTags(rs: seq<Reply>): seq<nat> { seq(|rs|, i requires 0 <= i < |rs| => ReplyTag(rs[i])) }

  ghost function DaemonTags(d: Daemon): seq<nat> {
    if d.Resting? then [] else [ReqTag(d.req)]
  }

  /** Everything sent and not yet read back, oldest first. */
  ghost function Pending(s: State): seq<nat> {
    ReplyTags(s.replies) + DaemonTags(s.daemon) + ReqTags(s.requests)
  }

  /** What is pending beyond the reply the current call waits for. */
  ghost function Outstanding(s: State): int {
    |Pending(s)| - if s.client.Waiting? then 1 else 0
  }

  ghost predicate AllBelow(tags: seq<nat>, n: nat) {
    forall i :: 0 <= i < |tags| ==> tags[i] < n
  }

  /** Sequence numbers: only the last pending line can be the current call's. */
  ghost predicate TagsOk(client: Client, seqNo: nat, pending: seq<nat>) {
    && (forall i :: 0 <= i < |pending| ==> pending[i] <= seqNo)
    && match client
       case Idle => true
       case Waiting(c) =>
         && pending != [] && pending[|pending| - 1] == ReqTag(RequestOf(c))
         && (c.Search? ==> c.seqNo == seqNo > 0 && AllBelow(pending[..|pending| - 1], seqNo))
       case _ => client.call.Search? ==> client.call.seqNo == seqNo > 0 && AllBelow(pending, seqNo)
  }

  ghost predicate ClientKind(client: Client) {
    client.WritingQuery? || client.WritingTopK? || client.WritingSeq? || client.Replied? || client.Reading? ==>
        client.call.Search?
  }

  ghost predicate DaemonKind(daemon: Daemon) {
    && (daemon.Answering? ==> ReplyTag(daemon.reply) == ReqTag(daemon.req))
    && (!daemon.Resting? && !daemon.Received? && !daemon.Answering? ==> daemon.req.SearchReq?)
  }

  ghost predicate SizesOk(scratch: Scratch) { |scratch.query| == DIM && |scratch.results| == SCRATCH_MAX_K }

  function Promised(promised: map<Path, nat>, p: Path): nat { if p in promised then promised[p] else 0 }

  ghost predicate VersionsOk(disk: map<Path, nat>, cache: map<Path, nat>, promised: map<Path, nat>, clock: nat) {
    && (forall p :: p in disk ==> disk[p] <= clock && Promised(promised, p) <= disk[p])
    && (forall p :: p in cache ==> cache[p] <= clock)
    && (forall p :: p in promised ==> promised[p] <= clock)
  }

  ghost predicate CallOk(client: Client, disk: map<Path, nat>, clock: nat) {
    && (!client.Idle? && client.call.Search? ==> |client.call.query| == DIM && 1 <= client.call.k <= SCRATCH_MAX_K)
    && (!client.Idle? && client.call.Remap? ==>
          client.call.floor <= clock && (client.call.index in disk ==> client.call.floor <= disk[client.call.index]))
  }

  /** hits is the daemon's answer to exactly this call, on a version of its index
      no older than any remap of it has promised. */
  ghost predicate AnswersCall(e: Engine, promised: map<Path, nat>, clock: nat, c: Call, hits: seq<Hit>) {
    && c.Search?
    && exists v: nat ::
         Promised(promised, c.index) <= v <= clock && e.answer(c.index, v, c.query, c.k) == Hits(hits)
  }

  ghost predicate InScratch(scratch: Scratch, c: Call)
    requires c.Search?
  {
    scratch.query == c.query && scratch.topK == c.k && scratch.seqNo == c.seqNo
  }

  /** What the scratch holds of the call while it is being written. */
  ghost predicate WrittenSoFar(client: Client, scratch: Scratch) {
    match client
    case WritingQuery(c, at) => at <= DIM && c.Search? && |c.query| == DIM == |scratch.query|
        && scratch.query[..at] == c.query[..at]
    case WritingTopK(c) => c.Search? && scratch.query == c.query
    case WritingSeq(c) => c.Search? && scratch.query == c.query && scratch.topK == c.k
    case Sending(c) => c.Search? ==> InScratch(scratch, c)
    case Waiting(c) => c.Search? ==> InScratch(scratch, c)
    case Replied(c) => c.Search? && InScratch(scratch, c)
    case Reading(c, _, _) => c.Search? && InScratch(scratch, c)
    case Idle => true
  }

  /** The scratch holds a complete answer to the call. */
  ghost predicate Delivered(e: Engine, scratch: Scratch, promised: map<Path, nat>, clock: nat, c: Call) {
    scratch.count <= |scratch.results| && AnswersCall(e, promised, clock, c, scratch.results[..scratch.count])
  }

  ghost predicate CacheFresh(cache: map<Path, nat>, promised: map<Path, nat>) {
    forall p :: p in cache ==> Promised(promised, p) <= cache[p]
  }

  /** How far the daemon is with the one search that is pending. */
  ghost predicate Progress(e: Engine, scratch: Scratch, daemon: Daemon, cache: map<Path, nat>,
                           promised: map<Path, nat>, clock: nat, c: Call)
    requires c.Search?
  {
    && (!daemon.Resting? ==> daemon.req == RequestOf(c))
    && match daemon
       case Copying(_, k, copy) => k == c.k && c.index in cache && copy <= c.query
       case Clearing(_, hits, _) => AnswersCall(e, promised, clock, c, hits)
       case Listing(_, hits, at) =>
         AnswersCall(e, promised, clock, c, hits) && at <= |hits| <= SCRATCH_MAX_K && hits[..at] <= scratch.results
       case Counting(_, hits) =>
         AnswersCall(e, promised, clock, c, hits) && |hits| <= SCRATCH_MAX_K && hits <= scratch.results
       case Answering(_, reply) => reply.SearchOk? ==> Delivered(e, scratch, promised, clock, c)
       case _ => true
  }

  ghost predicate Served(e: Engine, client: Client, scratch: Scratch, daemon: Daemon, requests: seq<Request>,
                         replies: seq<Reply>,
                         cache: map<Path, nat>, promised: map<Path, nat>, clock: nat) {
    match client
    case Waiting(c) =>
      && (forall i :: 0 <= i < |requests| ==> requests[i] == RequestOf(c))
      && (if c.Search? then
            && |c.query| == DIM && Progress(e, scratch, daemon, cache, promised, clock, c)
            && (replies != [] && replies[0].SearchOk? ==> Delivered(e, scratch, promised, clock, c))
          else
            && (!daemon.Resting? ==> daemon.req == RequestOf(c) && (daemon.Received? || daemon.Answering?))
            && (daemon.Answering? || replies != [] ==> c.Remap? ==> c.index !in cache))
    case Replied(c) => Delivered(e, scratch, promised, clock, c)
    case Reading(c, upto, got) =>
      && Delivered(e, scratch, promised, clock, c) && upto == scratch.count && |got| <= upto
           && got == scratch.results[..|got|]
    case _ => true
  }

  /** While nothing is outstanding, client and daemon are in step. */
  ghost predicate InStep(e: Engine, s: State) {
    && CacheFresh(s.cache, s.promised)
    && WrittenSoFar(s.client, s.scratch)
    && Served(e, s.client, s.scratch, s.daemon, s.requests, s.replies, s.cache, s.promised, s.clock)
  }

  ghost predicate Base(s: State) {
    && TagsOk(s.client, s.seqNo, Pending(s)) && ClientKind(s.client) && DaemonKind(s.daemon)
    && SizesOk(s.scratch) && VersionsOk(s.disk, s.cache, s.promised, s.clock) && CallOk(s.client, s.disk, s.clock)
    && Outstanding(s) >= 0 && (s.client.Replied? || s.client.Reading? ==> Outstanding(s) == 0)
  }

  ghost predicate Inv(e: Engine, s: State) { Base(s) && (Outstanding(s) == 0 ==> InStep(e, s)) }

  lemma InitInv(e: Engine, s: State)
    requires Init(s)
    ensures Inv(e, s) && |s.scratch.query| == 384 && |s.scratch.results| == 64
  {
  }

  // ------------------------------------------------------------ the pending lines

  lemma PendingSize(s: State)
    ensures |Pending(s)| == |s.replies| + (if s.daemon.Resting? then 0 else 1) + |s.requests|
  {
  }

  lemma PendingSame(s: State, t: State)
    requires t.replies == s.replies && t.requests == s.requests && DaemonTags(t.daemon) == DaemonTags(s.daemon)
    ensures Pending(t) == Pending(s)
  {
  }

  lemma PendingSend(s: State, t: State, r: Request)
    requires t.replies == s.replies && t.requests == s.requests + [r] && t.daemon == s.daemon
    ensures Pending(t) == Pending(s) + [ReqTag(r)]
  {
    assert ReqTags(s.requests + [r]) == ReqTags(s.requests) + [ReqTag(r)];
  }

  /** Reading a reply takes the oldest pending line. */
  lemma PopReply(s: State, t: State)
    requires s.replies != [] && t.replies == s.replies[1..] && t.daemon == s.daemon && t.requests == s.requests
    ensures Pending(s) == [ReplyTag(s.replies[0])] + Pending(t)
  {
    assert ReplyTags(s.replies) == [ReplyTag(s.replies[0])] + ReplyTags(t.replies);
  }

  lemma PendingReceive(s: State, t: State)
    requires Receive(s, t)
    ensures Pending(t) == Pending(s)
  {
    assert ReqTags(s.requests) == [ReqTag(s.requests[0])] + ReqTags(t.requests);
  }

  lemma PendingAnswer(s: State, t: State)
    requires Answer(s, t) && DaemonKind(s.daemon)
    ensures Pending(t) == Pending(s)
  {
    assert ReplyTags(t.replies) == ReplyTags(s.replies) + [ReplyTag(s.daemon.reply)];
  }

  /** With nothing outstanding a busy daemon serves the only pending line. */
  lemma Alone(s: State)
    requires Outstanding(s) == 0
    ensures !s.daemon.Resting? ==> s.client.Waiting? && s.replies == [] && s.requests == []
    ensures s.requests != [] ==> s.client.Waiting? && s.replies == [] && s.daemon.Resting? && |s.requests| == 1
    ensures s.replies != [] ==> s.client.Waiting? && s.requests == [] && s.daemon.Resting? && |s.replies| == 1
  {
    PendingSize(s);
  }

  /** A step of a client that is writing or starting: the pending lines stay. */
  lemma TagsMove(s: State, t: State)
    requires Base(s) && Pending(t) == Pending(s) && t.seqNo == s.seqNo
    requires !s.client.Idle? && !s.client.Waiting? && !t.client.Idle? && !t.client.Waiting?
             && t.client.call == s.client.call
    ensures TagsOk(t.client, t.seqNo, Pending(t)) && Outstanding(t) == Outstanding(s)
  {
    hide Pending;
  }

  /** A newer clock does not make an answer wrong. */
  lemma LaterVersions(e: Engine, promised: map<Path, nat>, clock: nat, later: nat, c: Call, hits: seq<Hit>)
    requires AnswersCall(e, promised, clock, c, hits) && later >= clock
    ensures AnswersCall(e, promised, later, c, hits)
  {
    var v: nat :| Promised(promised, c.index) <= v <= clock && e.answer(c.index, v, c.query, c.k) == Hits(hits);
    assert Promised(promised, c.index) <= v <= later;
  }

  // ------------------------------------------------------------ client steps keep the invariant

  lemma BeginSearchInv(e: Engine, s: State, t: State)
    requires EngineOk(e) && Inv(e, s) && BeginSearch(s, t)
    ensures Inv(e, t)
  {
    hide EngineOk;
    PendingSame(s, t);
    hide Pending, VersionsOk, CacheFresh, DaemonKind;
  }

  lemma BeginRemapInv(e: Engine, s: State, t: State)
    requires EngineOk(e) && Inv(e, s) && BeginRemap(s, t)
    ensures Inv(e, t)
  {
    hide EngineOk, DaemonKind, SizesOk;
    PendingSame(s, t);
    hide Pending;
  }

  lemma BeginPingInv(e: Engine, s: State, t: State)
    requires EngineOk(e) && Inv(e, s) && BeginPing(s, t)
    ensures Inv(e, t)
  {
    hide EngineOk, DaemonKind, SizesOk, VersionsOk, CacheFresh;
    PendingSame(s, t);
    hide Pending;
  }

  lemma WriteWordInv(e: Engine, s: State, t: State)
    requires EngineOk(e) && Inv(e, s) && WriteWord(s, t)
    ensures Inv(e, t)
  {
    hide EngineOk, DaemonKind, VersionsOk, CacheFresh;
    PendingSame(s, t);
    TagsMove(s, t);
    hide Pending, TagsOk, Outstanding;
    if Outstanding(s) == 0 && s.client.at < DIM {
      assert t.scratch.query[..s.client.at + 1] == s.client.call.query[..s.client.at + 1];
    }
  }

  lemma WriteTopKInv(e: Engine, s: State, t: State)
    requires EngineOk(e) && Inv(e, s) && WriteTopK(s, t)
    ensures Inv(e, t)
  {
    hide EngineOk, DaemonKind, VersionsOk, CacheFresh;
    PendingSame(s, t);
    TagsMove(s, t);
    hide Pending, TagsOk, Outstanding;
  }

  lemma WriteSeqInv(e: Engine, s: State, t: State)
    requires EngineOk(e) && Inv(e, s) && WriteSeq(s, t)
    ensures Inv(e, t)
  {
    hide EngineOk, DaemonKind, VersionsOk, CacheFresh;
    PendingSame(s, t);
    TagsMove(s, t);
    hide Pending, TagsOk, Outstanding;
  }

  lemma SendInv(e: Engine, s: State, t: State)
    requires EngineOk(e) && Inv(e, s) && Send(s, t)
    ensures Inv(e, t)
  {
    hide EngineOk, DaemonKind, VersionsOk, CacheFresh, SizesOk;
    PendingSend(s, t, RequestOf(s.client.call));
    PendingSize(s);
    hide Pending;
    assert Pending(t)[..|Pending(t)| - 1] == Pending(s);
    hide AllBelow;
    if Outstanding(t) == 0 {
      assert s.replies == [] && s.requests == [] && s.daemon.Resting?;
    }
  }

  lemma TimeOutInv(e: Engine, s: State, t: State)
    requires EngineOk(e) && Inv(e, s) && TimeOut(s, t)
    ensures Inv(e, t) && Outstanding(t) == Outstanding(s) + 1
  {
    hide EngineOk, DaemonKind, VersionsOk, SizesOk, InStep;
    PendingSame(s, t);
    hide Pending;
  }

  lemma TakeSearchReplyInv(e: Engine, s: State, t: State)
    requires EngineOk(e) && Inv(e, s) && TakeSearchReply(s, t)
    ensures Inv(e, t) && Outstanding(t) == Outstanding(s)
  {
    hide EngineOk, VersionsOk, CacheFresh, SizesOk;
    PopReply(s, t);
    var c, r := s.client.call, s.replies[0];
    var p, q := Pending(s), Pending(t);
    assert q == p[1..];
    if Outstanding(s) == 0 {
      Alone(s);
      assert q == [];
      hide Pending, DaemonKind, AnswersCall;
    } else {
      hide Pending, DaemonKind, InStep;
      assert p[..|p| - 1][0] == ReplyTag(r);
      assert t.client == Idle;
    }
  }

  lemma TakeSimpleReplyInv(e: Engine, s: State, t: State)
    requires EngineOk(e) && Inv(e, s) && TakeSimpleReply(s, t)
    ensures Inv(e, t) && Outstanding(t) == Outstanding(s)
  {
    hide EngineOk, SizesOk;
    PopReply(s, t);
    assert Pending(t) == Pending(s)[1..];
    if Outstanding(s) == 0 { Alone(s); }
    hide Pending, DaemonKind, AnswersCall, Progress;
  }

  lemma ReadCountInv(e: Engine, s: State, t: State)
    requires EngineOk(e) && Inv(e, s) && ReadCount(s, t)
    ensures Inv(e, t)
  {
    hide DaemonKind, VersionsOk, CacheFresh;
    PendingSame(s, t);
    TagsMove(s, t);
    CountWithinK(e, s);
    hide Pending, TagsOk, Outstanding, EngineOk, AnswersCall;
  }

  lemma CountWithinK(e: Engine, s: State)
    requires EngineOk(e) && SizesOk(s.scratch) && s.client.Replied?
             && Delivered(e, s.scratch, s.promised, s.clock, s.client.call)
    ensures s.scratch.count <= s.client.call.k
  {
    var c := s.client.call;
    var v: nat :| Promised(s.promised, c.index) <= v <= s.clock
        && e.answer(c.index, v, c.query, c.k) == Hits(s.scratch.results[..s.scratch.count]);
  }

  lemma ReadSlotInv(e: Engine, s: State, t: State)
    requires EngineOk(e) && Inv(e, s) && ReadSlot(s, t)
    ensures Inv(e, t)
  {
    hide EngineOk, DaemonKind, VersionsOk, CacheFresh, SizesOk;
    PendingSame(s, t);
    TagsMove(s, t);
    hide Pending, TagsOk, Outstanding, AnswersCall;
    assert t.client.got == s.scratch.results[..|s.client.got| + 1];
  }

  lemma ReturnInv(e: Engine, s: State, t: State)
    requires EngineOk(e) && Inv(e, s) && Return(s, t)
    ensures Inv(e, t)
  {
    hide EngineOk, DaemonKind, VersionsOk, CacheFresh, SizesOk;
    PendingSame(s, t);
    hide Pending;
  }

  // ------------------------------------------------------------ daemon steps keep the invariant

  /** A daemon step: what concerns only the client's side stays, and with something
      outstanding nothing else is asked. */
  lemma DaemonMoves(e: Engine, s: State, t: State)
    requires Inv(e, s) && Pending(t) == Pending(s)
    requires t.client == s.client && t.seqNo == s.seqNo && t.disk == s.disk && t.promised == s.promised
             && t.clock == s.clock
    requires DaemonKind(t.daemon) && SizesOk(t.scratch) && VersionsOk(t.disk, t.cache, t.promised, t.clock)
    ensures Outstanding(t) == Outstanding(s) && Base(t)
    ensures Outstanding(s) == 0 ==> InStep(e, s)
    ensures (Outstanding(s) == 0 ==> InStep(e, t)) ==> Inv(e, t)
  {
    hide Pending, TagsOk, ClientKind, DaemonKind, SizesOk, VersionsOk, CallOk, InStep;
  }

  lemma ReceiveInv(e: Engine, s: State, t: State)
    requires EngineOk(e) && Inv(e, s) && Receive(s, t)
    ensures Inv(e, t)
  {
    hide EngineOk;
    PendingReceive(s, t);
    DaemonMoves(e, s, t);
    if Outstanding(s) == 0 { Alone(s); }
    hide Pending, Base, Outstanding, Delivered, AnswersCall, CacheFresh, WrittenSoFar;
  }

  lemma ServeSimpleInv(e: Engine, s: State, t: State)
    requires EngineOk(e) && Inv(e, s) && ServeSimple(s, t)
    ensures Inv(e, t)
  {
    hide EngineOk;
    PendingSame(s, t);
    DaemonMoves(e, s, t);
    if Outstanding(s) == 0 { Alone(s); }
    hide Pending, Base, Outstanding, Delivered, AnswersCall, WrittenSoFar;
  }

  lemma CheckSeqInv(e: Engine, s: State, t: State)
    requires EngineOk(e) && Inv(e, s) && CheckSeq(s, t)
    ensures Inv(e, t)
  {
    hide EngineOk;
    PendingSame(s, t);
    DaemonMoves(e, s, t);
    if Outstanding(s) == 0 { Alone(s); }
    hide Pending, Base, Outstanding, Delivered, AnswersCall, WrittenSoFar, CacheFresh;
  }

  lemma MapIndexInv(e: Engine, s: State, t: State)
    requires EngineOk(e) && Inv(e, s) && MapIndex(s, t)
    ensures Inv(e, t)
  {
    hide EngineOk;
    PendingSame(s, t);
    assert DaemonKind(t.daemon) && VersionsOk(t.disk, t.cache, t.promised, t.clock);
    DaemonMoves(e, s, t);
    if Outstanding(s) == 0 {
      Alone(s);
      assert CacheFresh(t.cache, t.promised);
    }
    assert CallOk(s.client, s.disk, s.clock);
    hide Pending, Base, Outstanding, Delivered, AnswersCall, CacheFresh, VersionsOk, DaemonKind;
  }

  lemma CopyWordInv(e: Engine, s: State, t: State)
    requires EngineOk(e) && Inv(e, s) && CopyWord(s, t)
    ensures Inv(e, t)
  {
    hide EngineOk;
    PendingSame(s, t);
    DaemonMoves(e, s, t);
    if Outstanding(s) == 0 { Alone(s); }
    hide Pending, Base, Outstanding, Delivered, AnswersCall, CacheFresh;
  }

  lemma ComputeInv(e: Engine, s: State, t: State)
    requires EngineOk(e) && Inv(e, s) && Compute(e, s, t)
    ensures Inv(e, t)
  {
    PendingSame(s, t);
    DaemonMoves(e, s, t);
    if Outstanding(s) == 0 {
      Alone(s);
      var c := s.client.call;
      assert c.Search? && s.daemon.copy == c.query;
      if t.daemon.Clearing? {
        assert AnswersCall(e, t.promised, t.clock, c, t.daemon.hits) by {
          var v := s.cache[c.index];
          assert VersionsOk(s.disk, s.cache, s.promised, s.clock);
          assert Promised(t.promised, c.index) <= v <= t.clock
                 && e.answer(c.index, v, c.query, c.k) == Hits(t.daemon.hits);
        }
      }
    }
    hide Pending, Base, Outstanding, Delivered, AnswersCall, WrittenSoFar, CacheFresh, EngineOk;
  }

  lemma ClearSlotInv(e: Engine, s: State, t: State)
    requires EngineOk(e) && Inv(e, s) && ClearSlot(s, t)
    ensures Inv(e, t)
  {
    PendingSame(s, t);
    DaemonMoves(e, s, t);
    if Outstanding(s) == 0 {
      Alone(s);
      var c := s.client.call;
      assert Progress(e, s.scratch, s.daemon, s.cache, s.promised, s.clock, c);
      AnswerSize(e, s.promised, s.clock, c, s.daemon.hits);
      assert CallOk(s.client, s.disk, s.clock);
    }
    hide Pending, Base, Outstanding, Delivered, AnswersCall, CacheFresh, EngineOk;
  }

  lemma AnswerSize(e: Engine, promised: map<Path, nat>, clock: nat, c: Call, hits: seq<Hit>)
    requires EngineOk(e) && AnswersCall(e, promised, clock, c, hits)
    ensures |hits| <= c.k
  {
    var v: nat :| Promised(promised, c.index) <= v <= clock && e.answer(c.index, v, c.query, c.k) == Hits(hits);
  }

  lemma ListHitInv(e: Engine, s: State, t: State)
    requires EngineOk(e) && Inv(e, s) && ListHit(s, t)
    ensures Inv(e, t)
  {
    hide EngineOk;
    PendingSame(s, t);
    DaemonMoves(e, s, t);
    if Outstanding(s) == 0 {
      Alone(s);
      assert Progress(e, s.scratch, s.daemon, s.cache, s.promised, s.clock, s.client.call);
      ListedMore(s.daemon.hits, s.daemon.at, s.scratch.results);
    }
    hide Pending, Base, Outstanding, Delivered, AnswersCall, CacheFresh;
  }

  lemma ListedMore(hits: seq<Hit>, at: nat, results: seq<Hit>)
    requires at <= |hits| <= |results| && hits[..at] <= results
    ensures at < |hits| ==> hits[..at + 1] <= results[at := hits[at]]
    ensures at == |hits| ==> hits <= results
  {
    if at < |hits| {
      var after := results[at := hits[at]];
      forall i | 0 <= i < at + 1 ensures hits[..at + 1][i] == after[i] {
        if i < at { assert hits[..at][i] == results[i]; }
      }
    }
  }

  lemma WriteCountInv(e: Engine, s: State, t: State)
    requires EngineOk(e) && Inv(e, s) && WriteCount(s, t)
    ensures Inv(e, t)
  {
    hide EngineOk;
    PendingSame(s, t);
    DaemonMoves(e, s, t);
    if Outstanding(s) == 0 {
      Alone(s);
      assert Progress(e, s.scratch, s.daemon, s.cache, s.promised, s.clock, s.client.call);
      assert t.scratch.results[..t.scratch.count] == s.daemon.hits;
    }
    hide Pending, Base, Outstanding, AnswersCall, CacheFresh;
  }

  lemma AnswerInv(e: Engine, s: State, t: State)
    requires EngineOk(e) && Inv(e, s) && Answer(s, t)
    ensures Inv(e, t)
  {
    hide EngineOk;
    PendingAnswer(s, t);
    DaemonMoves(e, s, t);
    if Outstanding(s) == 0 { Alone(s); }
    hide Pending, Base, Outstanding, Delivered, AnswersCall, CacheFresh, WrittenSoFar;
  }

  // ------------------------------------------------------------ file steps keep the invariant

  lemma FilesMove(e: Engine, s: State, t: State)
    requires Inv(e, s) && t == s.(disk := t.disk, cache := t.cache, clock := t.clock) && t.clock >= s.clock
    requires t.cache.Keys == s.cache.Keys && VersionsOk(t.disk, t.cache, t.promised, t.clock)
             && CallOk(t.client, t.disk, t.clock)
    requires CacheFresh(s.cache, s.promised) ==> CacheFresh(t.cache, t.promised)
    ensures Inv(e, t)
  {
    PendingSame(s, t);
    hide Pending, TagsOk, ClientKind, DaemonKind, SizesOk, VersionsOk, CallOk, CacheFresh;
    if Outstanding(s) == 0 {
      forall c: Call, hits: seq<Hit> | AnswersCall(e, s.promised, s.clock, c, hits)
        ensures AnswersCall(e, t.promised, t.clock, c, hits)
      {
        LaterVersions(e, s.promised, s.clock, t.clock, c, hits);
      }
      hide AnswersCall, WrittenSoFar;
      assert Served(e, t.client, t.scratch, t.daemon, t.requests, t.replies, t.cache, t.promised, t.clock);
    }
  }

  lemma RebuildInv(e: Engine, s: State, t: State, p: Path)
    requires EngineOk(e) && Inv(e, s) && Rebuild(s, t, p)
    ensures Inv(e, t)
  {
    assert VersionsOk(s.disk, s.cache, s.promised, s.clock) && CallOk(s.client, s.disk, s.clock);
    hide Inv, Pending, EngineOk;
    FilesMove(e, s, t);
  }

  lemma EditInPlaceInv(e: Engine, s: State, t: State, p: Path)
    requires EngineOk(e) && Inv(e, s) && EditInPlace(s, t, p)
    ensures Inv(e, t)
  {
    assert VersionsOk(s.disk, s.cache, s.promised, s.clock) && CallOk(s.client, s.disk, s.clock);
    hide Inv, Pending, EngineOk;
    FilesMove(e, s, t);
  }

  // ------------------------------------------------------------ every run

  lemma NextInv(e: Engine, s: State, t: State)
    requires EngineOk(e) && Inv(e, s) && Next(e, s, t)
    ensures Inv(e, t)
  {
    hide Inv, EngineOk, BeginSearch, BeginRemap, BeginPing, WriteWord, WriteTopK, WriteSeq, Send, TimeOut,
      TakeSearchReply, TakeSimpleReply, ReadCount, ReadSlot, Return, Receive, ServeSimple, CheckSeq, MapIndex,
      CopyWord, Compute, ClearSlot, ListHit, WriteCount, Answer, Rebuild, EditInPlace;
    if ClientStep(s, t) {
      if BeginSearch(s, t) { BeginSearchInv(e, s, t); }
      else if BeginRemap(s, t) { BeginRemapInv(e, s, t); }
      else if BeginPing(s, t) { BeginPingInv(e, s, t); }
      else if WriteWord(s, t) { WriteWordInv(e, s, t); }
      else if WriteTopK(s, t) { WriteTopKInv(e, s, t); }
      else if WriteSeq(s, t) { WriteSeqInv(e, s, t); }
      else if Send(s, t) { SendInv(e, s, t); }
      else if TimeOut(s, t) { TimeOutInv(e, s, t); }
      else if TakeSearchReply(s, t) { TakeSearchReplyInv(e, s, t); }
      else if TakeSimpleReply(s, t) { TakeSimpleReplyInv(e, s, t); }
      else if ReadCount(s, t) { ReadCountInv(e, s, t); }
      else if ReadSlot(s, t) { ReadSlotInv(e, s, t); }
      else { ReturnInv(e, s, t); }
    } else if DaemonStep(e, s, t) {
      if Receive(s, t) { ReceiveInv(e, s, t); }
      else if ServeSimple(s, t) { ServeSimpleInv(e, s, t); }
      else if CheckSeq(s, t) { CheckSeqInv(e, s, t); }
      else if MapIndex(s, t) { MapIndexInv(e, s, t); }
      else if CopyWord(s, t) { CopyWordInv(e, s, t); }
      else if Compute(e, s, t) { ComputeInv(e, s, t); }
      else if ClearSlot(s, t) { ClearSlotInv(e, s, t); }
      else if ListHit(s, t) { ListHitInv(e, s, t); }
      else if WriteCount(s, t) { WriteCountInv(e, s, t); }
      else { AnswerInv(e, s, t); }
    } else {
      var p :| Rebuild(s, t, p) || EditInPlace(s, t, p);
      if Rebuild(s, t, p) { RebuildInv(e, s, t, p); } else { EditInPlaceInv(e, s, t, p); }
    }
  }

  lemma {:induction false} RunInv(e: Engine, run: seq<State>, n: nat)
    requires EngineOk(e) && Run(e, run) && n < |run|
    ensures Inv(e, run[n])
  {
    if n == 0 {
      InitInv(e, run[0]);
    } else {
      RunInv(e, run, n - 1);
      assert Next(e, run[n - 1], run[n - 1 + 1]);
      NextInv(e, run[n - 1], run[n]);
    }
  }

  lemma {:induction false} ReturnedAll(got: seq<Hit>)
    requires forall h :: h in got ==> h.0 >= 0
    ensures Returned(got) == got
  {
    if got != [] {
      ReturnedAll(got[1..]);
      assert got == [got[0]] + got[1..];
    }
  }

  /** In every run, whatever the interleaving, timeouts, stale lines, pings,
      remaps and rebuilds: when a search returns, its hits are the daemon's
      result for exactly the query, top_k and index this call wrote, on an index
      version no older than a completed remap of it has promised; and no line is
      then left over in either pipe. */
  lemma ReturnedHitsAreOurs(e: Engine, run: seq<State>, n: nat)
    requires EngineOk(e) && Run(e, run) && n < |run| && Returns(run[n])
    ensures var s := run[n]; var c := s.client.call;
            && c.Search? && c.seqNo == s.seqNo
            && AnswersCall(e, s.promised, s.clock, c, Returned(s.client.got))
            && Pending(s) == []
  {
    hide Pending;
    RunInv(e, run, n);
    hide Run;
    var s := run[n];
    var c := s.client.call;
    assert s.scratch.results[..s.scratch.count] == s.client.got;
    var v: nat :| Promised(s.promised, c.index) <= v <= s.clock
        && e.answer(c.index, v, c.query, c.k) == Hits(s.client.got);
    ReturnedAll(s.client.got);
  }

  /** Neither pipe nor the busy daemon nor the waiting client changes. */
  ghost predicate Quiet(s: State, t: State) {
    && t.replies == s.replies && t.requests == s.requests
    && t.daemon.Resting? == s.daemon.Resting? && t.client.Waiting? == s.client.Waiting?
  }

  lemma QuietKeeps(s: State, t: State)
    requires Quiet(s, t)
    ensures Outstanding(t) == Outstanding(s)
  {
    PendingSize(s);
    PendingSize(t);
    hide Pending;
  }

  lemma WritesAreQuiet(s: State, t: State)
    requires WriteWord(s, t) || WriteTopK(s, t) || WriteSeq(s, t) || ReadCount(s, t) || ReadSlot(s, t) || Return(s, t)
    ensures Quiet(s, t)
  {
    if WriteWord(s, t) {
    } else if WriteTopK(s, t) {
    } else if WriteSeq(s, t) {
    } else if ReadCount(s, t) {
    } else if ReadSlot(s, t) {
    } else {
    }
  }

  lemma ServingIsQuiet(e: Engine, s: State, t: State)
    requires ServeSimple(s, t) || CheckSeq(s, t) || MapIndex(s, t) || CopyWord(s, t) || Compute(e, s, t)
             || ClearSlot(s, t) || ListHit(s, t) || WriteCount(s, t)
    ensures Quiet(s, t)
  {
    if ServeSimple(s, t) {
    } else if CheckSeq(s, t) {
    } else if MapIndex(s, t) {
    } else if CopyWord(s, t) {
    } else if Compute(e, s, t) {
    } else if ClearSlot(s, t) {
    } else if ListHit(s, t) {
    } else {
    }
  }

  /** A step never uses up a left-over line. */
  lemma OutstandingNeverDrops(e: Engine, s: State, t: State)
    requires EngineOk(e) && Inv(e, s) && Next(e, s, t)
    ensures Outstanding(t) >= Outstanding(s)
    ensures !TimeOut(s, t) ==> Outstanding(t) == Outstanding(s)
  {
    hide Inv, EngineOk, Pending, Outstanding, BeginSearch, BeginRemap, BeginPing, WriteWord, WriteTopK, WriteSeq,
         Send, TimeOut,
      TakeSearchReply, TakeSimpleReply, ReadCount, ReadSlot, Return, Receive, ServeSimple, CheckSeq, MapIndex,
      CopyWord, Compute, ClearSlot, ListHit, WriteCount, Answer, Rebuild, EditInPlace, Quiet;
    if ClientStep(s, t) {
      if BeginSearch(s, t) || BeginRemap(s, t) || BeginPing(s, t) { BeginsAreQuiet(s, t); QuietKeeps(s, t); }
      else if Send(s, t) { SendKeeps(s, t); }
      else if TimeOut(s, t) { TimeOutInv(e, s, t); }
      else if TakeSearchReply(s, t) { TakeSearchReplyInv(e, s, t); }
      else if TakeSimpleReply(s, t) { TakeSimpleReplyInv(e, s, t); }
      else { WritesAreQuiet(s, t); QuietKeeps(s, t); }
    } else if DaemonStep(e, s, t) {
      if Receive(s, t) { ReceiveKeeps(s, t); }
      else if Answer(s, t) { AnswerKeeps(s, t); }
      else { ServingIsQuiet(e, s, t); QuietKeeps(s, t); }
    } else {
      var p :| Rebuild(s, t, p) || EditInPlace(s, t, p);
      FilesAreQuiet(s, t, p);
      QuietKeeps(s, t);
    }
  }

  lemma BeginsAreQuiet(s: State, t: State)
    requires BeginSearch(s, t) || BeginRemap(s, t) || BeginPing(s, t)
    ensures Quiet(s, t)
  {
  }

  lemma FilesAreQuiet(s: State, t: State, p: Path)
    requires Rebuild(s, t, p) || EditInPlace(s, t, p)
    ensures Quiet(s, t)
  {
  }

  lemma SendKeeps(s: State, t: State)
    requires Send(s, t)
    ensures Outstanding(t) == Outstanding(s)
  {
    PendingSize(s);
    PendingSize(t);
    hide Pending;
  }

  lemma ReceiveKeeps(s: State, t: State)
    requires Receive(s, t)
    ensures Outstanding(t) == Outstanding(s)
  {
    PendingReceive(s, t);
  }

  lemma AnswerKeeps(s: State, t: State)
    requires Answer(s, t)
    ensures Outstanding(t) == Outstanding(s)
  {
    PendingSize(s);
    PendingSize(t);
    hide Pending;
  }

  lemma {:induction false} OutstandingStays(e: Engine, run: seq<State>, i: nat, j: nat)
    requires EngineOk(e) && Run(e, run) && i <= j < |run|
    ensures Outstanding(run[j]) >= Outstanding(run[i])
    decreases j
  {
    hide Outstanding, Inv, EngineOk, Next, Init;
    if i < j {
      OutstandingStays(e, run, i, j - 1);
      RunInv(e, run, j - 1);
      assert Next(e, run[j - 1], run[j - 1 + 1]);
      OutstandingNeverDrops(e, run[j - 1], run[j]);
    }
  }

  /** Once a call has timed out, no later search of this client returns hits:
      the sequence numbers stay out of step, and every search raises. */
  lemma NoHitsAfterTimeout(e: Engine, run: seq<State>, i: nat, j: nat)
    requires EngineOk(e) && Run(e, run) && i + 1 <= j < |run|
    requires TimeOut(run[i], run[i + 1])
    ensures !Returns(run[j])
  {
    RunInv(e, run, i);
    RunInv(e, run, j);
    TimeOutInv(e, run[i], run[i + 1]);
    OutstandingStays(e, run, i + 1, j);
    hide Run, TagsOk, InStep, VersionsOk, SizesOk, Pending;
  }
}
