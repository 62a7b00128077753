/** The hash-linked manifest store of retrieval_manifest.py: locked saves by
    several processes with their own cached heads, the ancestor walk and the
    retention pruning. A locked section is one method. */
module StateChain {
  import opened Common

  const RETENTION_LIMIT := 256

  /** A manifest id: 64 hexadecimal digits, read as a number. */
  datatype Id = Id(digits: nat)
  type Process = int

  /** A manifest without its own id; body stands for all other fields. */
  datatype Manifest = Manifest(parent: Id, seqNo: nat, session: int, body: int)

  /** The state MAC and genesis_parent_hash. */
  datatype Crypto = Crypto(mac: Manifest -> Id, genesis: int -> Id)

  ghost predicate CryptoOk(c: Crypto) {
    forall a: Manifest, b: Manifest :: c.mac(a) == c.mac(b) ==> a == b
  }

  function Pair(a: nat, b: nat): nat { (a + b) * (a + b) + a }

  lemma PairInjective(a: nat, b: nat, x: nat, y: nat)
    requires Pair(a, b) == Pair(x, y)
    ensures a == x && b == y
  {
    SmallerSum(a, b, x, y);
    SmallerSum(x, y, a, b);
  }

  lemma SmallerSum(a: nat, b: nat, x: nat, y: nat)
    ensures a + b < x + y ==> Pair(a, b) < Pair(x, y)
  {
    var s, t := a + b, x + y;
    if s < t {
      assert (s + 1) * (s + 1) == s * s + 2 * s + 1;
      Squares(s + 1, t);
    }
  }

  lemma Squares(s: nat, t: nat)
    requires s <= t
    ensures s * s <= t * t
  {
    assert t * t == s * s + (t - s) * (t + s);
  }

  function Natural(z: int): nat { if z >= 0 then 2 * z else -2 * z - 1 }

  /** Such a mac exists, whatever the genesis parents. */
  lemma CryptoExists(genesis: int -> Id) returns (c: Crypto)
    ensures CryptoOk(c) && c.genesis == genesis
  {
    hide Pair;
    c := Crypto((m: Manifest) =>
                  Id(Pair(Pair(m.parent.digits, m.seqNo), Pair(Natural(m.session), Natural(m.body)))),
                genesis);
    forall a: Manifest, b: Manifest | c.mac(a) == c.mac(b) ensures a == b {
      PairInjective(Pair(a.parent.digits, a.seqNo), Pair(Natural(a.session), Natural(a.body)),
                    Pair(b.parent.digits, b.seqNo), Pair(Natural(b.session), Natural(b.body)));
      PairInjective(a.parent.digits, a.seqNo, b.parent.digits, b.seqNo);
      PairInjective(Natural(a.session), Natural(a.body), Natural(b.session), Natural(b.body));
    }
  }

  /** StateChainExpectation, also the latest pointer. */
  datatype Head = Head(session: int, seqNo: nat, id: Id)

  function HeadOf(c: Crypto, m: Manifest): Head { Head(m.session, m.seqNo, c.mac(m)) }

  // ------------------------------------------------------------ chains

  /** p is m's direct predecessor. */
  ghost predicate Precedes(c: Crypto, p: Manifest, m: Manifest) {
    c.mac(p) == m.parent && p.seqNo + 1 == m.seqNo && p.session == m.session
  }

  /** A manifest that may be accepted after the given ones. */
  ghost predicate Linked(c: Crypto, accepted: set<Manifest>, m: Manifest) {
    if m.seqNo == 1 then m.parent == c.genesis(m.session)
    else m.seqNo > 1 && exists p :: p in accepted && Precedes(c, p, m)
  }

  ghost predicate AllLinked(c: Crypto, accepted: set<Manifest>) {
    forall m :: m in accepted ==> Linked(c, accepted, m)
  }

  /** chain[0] is m, each next one is the predecessor, down to the genesis parent. */
  ghost predicate IsChain(c: Crypto, accepted: set<Manifest>, m: Manifest, chain: seq<Manifest>) {
    && |chain| == m.seqNo > 0 && chain[0] == m
    && (forall i :: 0 <= i < |chain| ==> chain[i] in accepted && chain[i].session == m.session)
    && (forall i :: 0 <= i < |chain| - 1 ==> Precedes(c, chain[i + 1], chain[i]))
    && chain[|chain| - 1].parent == c.genesis(m.session)
  }

  /** Every accepted manifest of sequence n has its n - 1 accepted ancestors. */
  lemma {:induction false} AncestorsAccepted(c: Crypto, accepted: set<Manifest>, m: Manifest)
    returns (chain: seq<Manifest>)
    requires AllLinked(c, accepted) && m in accepted
    ensures IsChain(c, accepted, m, chain)
    ensures |chain| == m.seqNo > 0 && chain[0] == m && chain[|chain| - 1].parent == c.genesis(m.session)
    ensures forall i :: 0 <= i < |chain| ==> chain[i] in accepted && chain[i].session == m.session
    ensures forall i :: 1 <= i < |chain| ==>
              chain[i - 1].parent == c.mac(chain[i]) && chain[i - 1].seqNo == chain[i].seqNo + 1
    decreases m.seqNo
  {
    assert Linked(c, accepted, m);
    if m.seqNo == 1 {
      chain := [m];
    } else {
      var p :| p in accepted && Precedes(c, p, m);
      var rest := AncestorsAccepted(c, accepted, p);
      chain := [m] + rest;
      forall i | 0 <= i < |chain| - 1 ensures Precedes(c, chain[i + 1], chain[i]) {
        if i > 0 { assert Precedes(c, rest[i], rest[i - 1]); }
      }
      forall i | 1 <= i < |chain|
        ensures chain[i - 1].parent == c.mac(chain[i]) && chain[i - 1].seqNo == chain[i].seqNo + 1
      {
        assert Precedes(c, chain[i - 1 + 1], chain[i - 1]);
      }
    }
  }

  /** The ancestor is unique: the mac names at most one manifest. */
  lemma {:induction false} ChainUnique(c: Crypto, accepted: set<Manifest>, m: Manifest, a: seq<Manifest>,
                                       b: seq<Manifest>, i: nat)
    requires CryptoOk(c) && IsChain(c, accepted, m, a) && IsChain(c, accepted, m, b) && i < m.seqNo
    ensures a[i] == b[i]
  {
    if i > 0 {
      ChainUnique(c, accepted, m, a, b, i - 1);
      assert Precedes(c, a[i - 1 + 1], a[i - 1]) && Precedes(c, b[i - 1 + 1], b[i - 1]);
    }
  }

  lemma {:induction false} ChainSeqNo(c: Crypto, accepted: set<Manifest>, m: Manifest, chain: seq<Manifest>, i: nat)
    requires IsChain(c, accepted, m, chain) && i < |chain|
    ensures chain[i].seqNo == m.seqNo - i
  {
    if i > 0 {
      ChainSeqNo(c, accepted, m, chain, i - 1);
      assert Precedes(c, chain[i - 1 + 1], chain[i - 1]);
    }
  }

  // ------------------------------------------------------------ the ancestor walk

  /** What the walk checks on the way from m down to the head (id, n). */
  ghost predicate WalkSucceeds(c: Crypto, files: map<Id, Manifest>, m: Manifest, id: Id, n: nat)
    decreases m.seqNo
  {
    && m.seqNo > n
    && (if m.seqNo == n + 1 then m.parent == id
        else
          && m.parent in files && c.mac(files[m.parent]) == m.parent
          && files[m.parent].session == m.session && files[m.parent].seqNo == m.seqNo - 1
          && WalkSucceeds(c, files, files[m.parent], id, n))
  }

  /** A successful walk really reaches the head: it is the ancestor of its sequence number. */
  lemma {:induction false} WalkFindsAncestor(c: Crypto, files: map<Id, Manifest>, accepted: set<Manifest>,
                                             m: Manifest, h: Head, chain: seq<Manifest>)
    requires CryptoOk(c) && IsChain(c, accepted, m, chain) && h.seqNo >= 1
    requires WalkSucceeds(c, files, m, h.id, h.seqNo)
    ensures HeadOf(c, chain[m.seqNo - h.seqNo]).id == h.id && chain[m.seqNo - h.seqNo].seqNo == h.seqNo
    decreases m.seqNo
  {
    assert Precedes(c, chain[0 + 1], chain[0]);
    if m.seqNo > h.seqNo + 1 {
      var p := files[m.parent];
      assert p == chain[1];
      var rest := chain[1..];
      assert IsChain(c, accepted, p, rest) by {
        forall i | 0 <= i < |rest| - 1 ensures Precedes(c, rest[i + 1], rest[i]) {
          assert Precedes(c, chain[i + 1 + 1], chain[i + 1]);
        }
      }
      WalkFindsAncestor(c, files, accepted, p, h, rest);
    }
  }

  /** Conversely, when the head is the ancestor and everything strictly between
      is still on disk, the walk succeeds. */
  lemma {:induction false} AncestorIsFound(c: Crypto, files: map<Id, Manifest>, accepted: set<Manifest>,
                                           m: Manifest, h: Head, chain: seq<Manifest>)
    requires IsChain(c, accepted, m, chain) && 1 <= h.seqNo < m.seqNo
    requires c.mac(chain[m.seqNo - h.seqNo]) == h.id
    requires forall i :: 0 < i < m.seqNo - h.seqNo ==> c.mac(chain[i]) in files && files[c.mac(chain[i])] == chain[i]
    ensures WalkSucceeds(c, files, m, h.id, h.seqNo)
    decreases m.seqNo
  {
    assert Precedes(c, chain[0 + 1], chain[0]);
    if m.seqNo > h.seqNo + 1 {
      var p := chain[1];
      var rest := chain[1..];
      assert IsChain(c, accepted, p, rest) by {
        forall i | 0 <= i < |rest| - 1 ensures Precedes(c, rest[i + 1], rest[i]) {
          assert Precedes(c, chain[i + 1 + 1], chain[i + 1]);
        }
      }
      AncestorIsFound(c, files, accepted, p, h, rest);
    }
  }

  /** A successful walk passes only over manifests that are on disk. */
  lemma {:induction false} WalkNeedsFiles(c: Crypto, files: map<Id, Manifest>, accepted: set<Manifest>,
                                          m: Manifest, h: Head, chain: seq<Manifest>, i: nat)
    requires CryptoOk(c) && IsChain(c, accepted, m, chain) && h.seqNo >= 1
    requires WalkSucceeds(c, files, m, h.id, h.seqNo) && 0 < i < m.seqNo - h.seqNo
    ensures c.mac(chain[i]) in files && files[c.mac(chain[i])] == chain[i]
    decreases m.seqNo
  {
    assert Precedes(c, chain[0 + 1], chain[0]);
    var p := files[m.parent];
    assert p == chain[1];
    if i > 1 {
      var rest := chain[1..];
      assert IsChain(c, accepted, p, rest) by {
        forall j | 0 <= j < |rest| - 1 ensures Precedes(c, rest[j + 1], rest[j]) {
          assert Precedes(c, chain[j + 1 + 1], chain[j + 1]);
        }
      }
      WalkNeedsFiles(c, files, accepted, p, h, rest, i - 1);
    }
  }

  /** Every file carries its own name and was accepted. */
  ghost predicate FilesOk(c: Crypto, files: map<Id, Manifest>, accepted: set<Manifest>) {
    forall id :: id in files ==> c.mac(files[id]) == id && files[id] in accepted
  }

  /** The manifests strictly between the head and m are on disk. */
  ghost predicate Present(c: Crypto, files: map<Id, Manifest>, chain: seq<Manifest>, depth: int)
    requires depth <= |chain|
  {
    forall i :: 0 < i < depth ==> c.mac(chain[i]) in files
  }

  /** The head is the manifest of its sequence number on the chain that ends in m, and every
      manifest strictly between is on disk. */
  ghost predicate Behind(c: Crypto, files: map<Id, Manifest>, accepted: set<Manifest>, m: Manifest, h: Head,
                         chain: seq<Manifest>) {
    && IsChain(c, accepted, m, chain) && 1 <= h.seqNo < m.seqNo
    && HeadOf(c, chain[m.seqNo - h.seqNo]) == h && Present(c, files, chain, m.seqNo - h.seqNo)
  }

  /** The walk from m to h succeeds exactly when h is m's ancestor and everything
      between is on disk. */
  lemma WalkIff(c: Crypto, files: map<Id, Manifest>, accepted: set<Manifest>, m: Manifest, h: Head,
                chain: seq<Manifest>)
    requires CryptoOk(c) && FilesOk(c, files, accepted) && IsChain(c, accepted, m, chain)
    requires h.session == m.session && 1 <= h.seqNo < m.seqNo
    ensures WalkSucceeds(c, files, m, h.id, h.seqNo) <==>
            && HeadOf(c, chain[m.seqNo - h.seqNo]) == h
            && Present(c, files, chain, m.seqNo - h.seqNo)
  {
    var depth := m.seqNo - h.seqNo;
    ChainSeqNo(c, accepted, m, chain, depth);
    if WalkSucceeds(c, files, m, h.id, h.seqNo) {
      WalkFindsAncestor(c, files, accepted, m, h, chain);
      forall i | 0 < i < depth ensures c.mac(chain[i]) in files {
        WalkNeedsFiles(c, files, accepted, m, h, chain, i);
      }
    }
    if HeadOf(c, chain[depth]) == h && Present(c, files, chain, depth) {
      forall i | 0 < i < depth ensures c.mac(chain[i]) in files && files[c.mac(chain[i])] == chain[i] {
        assert c.mac(files[c.mac(chain[i])]) == c.mac(chain[i]);
      }
      AncestorIsFound(c, files, accepted, m, h, chain);
    }
  }

  // ------------------------------------------------------------ retention

  /** The order of retention: modification time, then name. */
  predicate Older(mtime: map<Id, int>, a: Id, b: Id)
    requires a in mtime && b in mtime
  {
    mtime[a] < mtime[b] || (mtime[a] == mtime[b] && a.digits < b.digits)
  }

  predicate IsOldest(mtime: map<Id, int>, ids: set<Id>, x: Id)
    requires ids <= mtime.Keys
  {
    x in ids && forall y :: y in ids ==> y == x || Older(mtime, x, y)
  }

  lemma {:induction false} OldestExists(mtime: map<Id, int>, ids: set<Id>) returns (x: Id)
    requires ids != {} && ids <= mtime.Keys
    ensures IsOldest(mtime, ids, x)
    decreases |ids|
  {
    x :| x in ids;
    var others := ids - {x};
    assert ids == others + {x};
    if others != {} {
      assert |others| < |ids|;
      var r := OldestExists(mtime, others);
      if Older(mtime, r, x) { x := r; }
    }
  }

  /** A part of the map, unchanged. */
  ghost predicate Fewer<V>(after: map<Id, V>, before: map<Id, V>) {
    after.Keys <= before.Keys && forall id :: id in after ==> after[id] == before[id]
  }

  /** What retention leaves: the latest one and the newest others, RETENTION_LIMIT
      in all when there are more. */
  ghost predicate Kept(mtime: map<Id, int>, kept: set<Id>, latestId: Id) {
    && latestId in kept && kept <= mtime.Keys
    && |kept| == (if |mtime.Keys| <= RETENTION_LIMIT then |mtime.Keys| else RETENTION_LIMIT)
    && forall gone, k :: gone in mtime && gone !in kept && k in kept && k != latestId ==> Older(mtime, gone, k)
  }

  method NewestIds(mtime: map<Id, int>, latestId: Id) returns (kept: set<Id>)
    requires latestId in mtime
    ensures Kept(mtime, kept, latestId)
  {
    kept := mtime.Keys;
    while |kept| > RETENTION_LIMIT
      invariant latestId in kept && kept <= mtime.Keys
      invariant |kept| >= if |mtime.Keys| <= RETENTION_LIMIT then |mtime.Keys| else RETENTION_LIMIT
      invariant |kept| <= |mtime.Keys|
      invariant forall gone, k :: gone in mtime && gone !in kept && k in kept && k != latestId ==> Older(mtime, gone, k)
      decreases |kept|
    {
      var rest := kept - {latestId};
      assert kept == rest + {latestId};
      ghost var oldest := OldestExists(mtime, rest);
      var id: Id :| IsOldest(mtime, rest, id);
      assert IsOldest(mtime, rest, id);
      kept := kept - {id};
    }
  }

  /** Retention is determined by the modification times and the latest id. */
  lemma KeptUnique(mtime: map<Id, int>, a: set<Id>, b: set<Id>, latestId: Id)
    requires Kept(mtime, a, latestId) && Kept(mtime, b, latestId)
    ensures a == b
  {
    KeptWithin(mtime, a, b, latestId);
    KeptWithin(mtime, b, a, latestId);
  }

  lemma KeptWithin(mtime: map<Id, int>, a: set<Id>, b: set<Id>, latestId: Id)
    requires Kept(mtime, a, latestId) && Kept(mtime, b, latestId)
    ensures a <= b
  {
    if x :| x in a && x !in b {
      assert b <= a by {
        forall y | y in b ensures y in a {
          if y != latestId { assert Older(mtime, x, y) && !Older(mtime, y, x); }
        }
      }
      assert b < a;
      SmallerSet(b, a);
    }
  }

  // ------------------------------------------------------------ the store

  ghost predicate HeadsOk(c: Crypto, heads: map<Process, Head>, accepted: set<Manifest>) {
    forall p :: p in heads ==> IsHead(c, heads[p], accepted)
  }

  ghost predicate IsHead(c: Crypto, h: Head, accepted: set<Manifest>) {
    exists m :: m in accepted && HeadOf(c, m) == h
  }

  class Store {
    const c: Crypto
    var files: map<Id, Manifest>
    var mtime: map<Id, int>
    var latest: Maybe<Head>
    var heads: map<Process, Head>
    ghost var accepted: set<Manifest>

    /** Files carry their own names and were accepted, latest names one of them,
        every cached head was accepted, and every accepted manifest is linked. */
    ghost predicate Valid()
      reads this
    {
      && CryptoOk(c)
      && FilesOk(c, files, accepted)
      && mtime.Keys == files.Keys
      && (latest.Just? ==> latest.value.id in files && HeadOf(c, files[latest.value.id]) == latest.value)
      && (latest.Nothing? ==> files == map[])
      && HeadsOk(c, heads, accepted)
      && AllLinked(c, accepted)
      && |files| <= RETENTION_LIMIT
    }

    constructor (c: Crypto)
      requires CryptoOk(c)
      ensures Valid() && latest == Nothing && accepted == {} && heads == map[] && this.c == c
    {
      this.c := c;
      files, mtime, latest, heads, accepted := map[], map[], Nothing, map[], {};
    }

    /** A process ends: its cache is gone. */
    method Restart(p: Process)
      requires Valid()
      modifies `heads
      ensures Valid() && heads == old(heads) - {p}
    {
      heads := heads - {p};
    }

    /** _read_latest_authenticated: Nothing in the first place is the raised error. */
    method ReadLatest() returns (r: Maybe<Maybe<Manifest>>)
      ensures latest.Nothing? ==> r == Just(Nothing)
      ensures latest.Just? ==>
                r == if latest.value.id in files && HeadOf(c, files[latest.value.id]) == latest.value
                     then Just(Just(files[latest.value.id])) else Nothing
    {
      if latest.Nothing? { return Just(Nothing); }
      var pointer := latest.value;
      if pointer.id !in files { return Nothing; }
      var m := files[pointer.id];
      if c.mac(m) != pointer.id || m.session != pointer.session || m.seqNo != pointer.seqNo { return Nothing; }
      return Just(Just(m));
    }

    /** _assert_authenticated_forward_progress. */
    method WalkToHead(existing: Manifest, trusted: Head) returns (ok: bool)
      requires existing.session == trusted.session
      ensures ok <==> WalkSucceeds(c, files, existing, trusted.id, trusted.seqNo)
    {
      if existing.seqNo <= trusted.seqNo { return false; }
      var cursor := existing;
      while cursor.seqNo > trusted.seqNo
        invariant cursor.session == existing.session && cursor.seqNo > trusted.seqNo
        invariant WalkSucceeds(c, files, existing, trusted.id, trusted.seqNo) <==>
                  WalkSucceeds(c, files, cursor, trusted.id, trusted.seqNo)
        decreases cursor.seqNo
      {
        if cursor.seqNo == trusted.seqNo + 1 { return cursor.parent == trusted.id; }
        if cursor.parent !in files { return false; }
        var parent := files[cursor.parent];
        if c.mac(parent) != cursor.parent { return false; }
        if parent.session != existing.session { return false; }
        if parent.seqNo != cursor.seqNo - 1 { return false; }
        cursor := parent;
      }
      return false;
    }

    /** When the integrity check lets a save by p into session s go on. */
    ghost predicate MayProceed(p: Process, s: int)
      reads this
    {
      latest.Nothing? || p !in heads
      || (heads[p].session != latest.value.session && latest.value.session == s)
      || (heads[p].session == latest.value.session
          && (heads[p] == latest.value
              || (latest.value.id in files
                  && WalkSucceeds(c, files, files[latest.value.id], heads[p].id, heads[p].seqNo))))
    }

    /** _assert_existing_latest_integrity: the head on disk is adopted, or the check fails. */
    method CheckLatest(p: Process, session: int) returns (r: Maybe<Maybe<Manifest>>)
      requires Valid()
      modifies `heads
      ensures Valid()
      ensures r.Just? <==> old(MayProceed(p, session))
      ensures r.Just? <==> old(Trusts(p, session))
      ensures r.Nothing? ==> heads == old(heads)
      ensures r.Just? ==> r.value == (if latest.Nothing? then Nothing else Just(files[latest.value.id]))
      ensures r.Just? && latest.Just? ==> heads == old(heads)[p := latest.value]
      ensures latest.Nothing? ==> heads == old(heads)
    {
      hide Trusts, WalkSucceeds, AllLinked, CryptoOk;
      TrustIsAncestry(p, session);
      r := ReadLatest();
      if r == Just(Nothing) { return; }
      var existing := r.value.value;
      if p !in heads {
        heads := heads[p := HeadOf(c, existing)];
        return;
      }
      var trusted := heads[p];
      if existing.session != trusted.session {
        if existing.session != session { return Nothing; }
        heads := heads[p := HeadOf(c, existing)];
        return;
      }
      if existing.seqNo <= trusted.seqNo { NoWalkUp(existing, trusted); }
      if existing.seqNo < trusted.seqNo { return Nothing; }
      if existing.seqNo == trusted.seqNo {
        if c.mac(existing) != trusted.id { return Nothing; }
        assert heads == heads[p := latest.value];
        return;
      }
      var ok := WalkToHead(existing, trusted);
      if !ok { return Nothing; }
      heads := heads[p := HeadOf(c, existing)];
    }

    /** bootstrap_latest_state_chain_expectation; false is the raised error. */
    method Bootstrap(p: Process) returns (ok: bool)
      requires Valid()
      modifies `heads
      ensures Valid()
      ensures ok <==> if latest.Nothing? then p !in old(heads) else p !in old(heads) || old(heads)[p] == latest.value
      ensures heads == if ok && latest.Just? then old(heads)[p := latest.value] else old(heads)
    {
      var r := ReadLatest();
      if r == Just(Nothing) { return p !in heads; }
      var existing := r.value.value;
      if p !in heads {
        heads := heads[p := HeadOf(c, existing)];
        return true;
      }
      if heads[p] != HeadOf(c, existing) { return false; }
      assert heads == heads[p := latest.value];
      return true;
    }

    /** _prune_retrieval_manifests: the oldest files beyond the limit go, the
        latest one always stays. */
    method Prune(latestId: Id)
      requires latestId in files && mtime.Keys == files.Keys
      modifies `files, `mtime
      ensures Kept(old(mtime), files.Keys, latestId)
      ensures if |old(files)| <= 256 then files == old(files) else |files| == 256
      ensures forall gone, kept :: gone in old(files) && gone !in files && kept in files && kept != latestId ==>
                && gone in old(mtime) && kept in old(mtime)
                && (old(mtime)[gone] < old(mtime)[kept]
                    || (old(mtime)[gone] == old(mtime)[kept] && gone.digits < kept.digits))
      ensures mtime.Keys == files.Keys && latestId in files && |files| <= RETENTION_LIMIT
      ensures Fewer(files, old(files)) && Fewer(mtime, old(mtime))
    {
      var kept := NewestIds(mtime, latestId);
      files := map id | id in kept :: files[id];
      mtime := map id | id in kept :: mtime[id];
      assert files.Keys == kept;
      if |old(files)| <= 256 {
        assert |old(mtime).Keys| <= 256;
        KeptWhole(old(mtime), kept, latestId);
        assert files == old(files);
      }
    }

    /** When a save of m by p is accepted. */
    ghost predicate SaveAccepted(p: Process, m: Manifest)
      reads this
    {
      MayProceed(p, m.session) && Follows(m)
    }

    /** The latest manifest may be relied on by p when it saves into session s: p has no head,
        or follows another session that s replaced, or its head is the latest one, or it is an
        ancestor of the latest one with everything between on disk. */
    ghost predicate Trusts(p: Process, s: int)
      reads this
    {
      || latest.Nothing? || p !in heads
      || (heads[p].session != latest.value.session && latest.value.session == s)
      || heads[p] == latest.value
      || (&& heads[p].session == latest.value.session && latest.value.id in files
          && exists chain :: Behind(c, files, accepted, files[latest.value.id], heads[p], chain))
    }

    /** m starts a chain, is the latest manifest again, or extends it. */
    ghost predicate Follows(m: Manifest)
      reads `latest
    {
      if latest.Nothing? || latest.value.session != m.session then m.seqNo == 1 && m.parent == c.genesis(m.session)
      else c.mac(m) == latest.value.id || (m.seqNo == latest.value.seqNo + 1 && m.parent == latest.value.id)
    }

    lemma FollowsIs(p: Process, m: Manifest)
      ensures SaveAccepted(p, m) <==> MayProceed(p, m.session) && Follows(m)
      ensures
        (latest.Just? && m.session == latest.value.session && m.seqNo == latest.value.seqNo + 1
         && m.parent == latest.value.id) ==>
          Follows(m)
    {
    }

    lemma FilesDated()
      requires Valid()
      ensures mtime.Keys == files.Keys
    {
    }

    lemma NoFiles()
      requires Valid() && latest.Nothing?
      ensures files.Keys == {}
    {
    }

    lemma HeadSeqNo(p: Process)
      requires Valid() && p in heads
      ensures heads[p].seqNo >= 1
    {
      assert IsHead(c, heads[p], accepted);
      var m :| m in accepted && HeadOf(c, m) == heads[p];
      assert Linked(c, accepted, m);
    }

    lemma NoWalkUp(m: Manifest, h: Head)
      requires m.seqNo <= h.seqNo
      ensures !WalkSucceeds(c, files, m, h.id, h.seqNo)
    {
    }

    /** For a head of the latest session behind the latest manifest. */
    lemma AncestryBehind(p: Process)
      requires Valid() && latest.Just? && p in heads
      requires heads[p].session == latest.value.session && heads[p].seqNo < latest.value.seqNo
      ensures WalkSucceeds(c, files, files[latest.value.id], heads[p].id, heads[p].seqNo) <==>
              exists chain :: Behind(c, files, accepted, files[latest.value.id], heads[p], chain)
    {
      hide WalkSucceeds, Present, HeadsOk, AllLinked, Linked, IsChain, CryptoOk;
      HeadSeqNo(p);
      assert FilesOk(c, files, accepted);
      var m := files[latest.value.id];
      var chain := WalkExact(p);
      if other :| Behind(c, files, accepted, m, heads[p], other) {
        WalkIff(c, files, accepted, m, heads[p], other);
      }
      if WalkSucceeds(c, files, m, heads[p].id, heads[p].seqNo) {
        assert Behind(c, files, accepted, m, heads[p], chain);
      }
    }

    /** The check of the cached head, walk and all, is this trust. */
    lemma TrustIsAncestry(p: Process, s: int)
      requires Valid()
      ensures MayProceed(p, s) <==> Trusts(p, s)
    {
      hide WalkSucceeds, HeadsOk, AllLinked, Linked, IsChain, CryptoOk, FilesOk;
      if latest.Just? && p in heads && heads[p].session == latest.value.session {
        if heads[p].seqNo < latest.value.seqNo {
          AncestryBehind(p);
        } else {
          NoWalkUp(files[latest.value.id], heads[p]);
          forall chain ensures !Behind(c, files, accepted, files[latest.value.id], heads[p], chain) { }
        }
      }
    }

    lemma BehindExactly(p: Process, m: Manifest)
      requires Valid()
      ensures latest.Just? && p in heads && heads[p].session == latest.value.session
              && heads[p].seqNo < latest.value.seqNo ==>
                (Trusts(p, m.session) <==>
                 exists chain :: IsChain(c, accepted, files[latest.value.id], chain)
                     && HeadOf(c, chain[latest.value.seqNo - heads[p].seqNo]) == heads[p]
                     && Present(c, files, chain, latest.value.seqNo - heads[p].seqNo))
    {
      hide HeadsOk, AllLinked, Linked, CryptoOk, FilesOk, Present;
      if latest.Just? && p in heads && heads[p].session == latest.value.session
         && heads[p].seqNo < latest.value.seqNo {
        HeadSeqNo(p);
        var last := files[latest.value.id];
        var depth := last.seqNo - heads[p].seqNo;
        if chain :| IsChain(c, accepted, last, chain) && HeadOf(c, chain[depth]) == heads[p]
                    && Present(c, files, chain, depth) {
          assert Behind(c, files, accepted, last, heads[p], chain);
        }
      }
    }

    /** save_retrieval_manifest: accepted exactly when the cached head allows it
        and m starts a chain, extends the latest one, or is the latest one again;
        a rejected save leaves disk and pointer alone. */
    method Save(p: Process, m: Manifest, now: int) returns (ok: bool)
      requires Valid() && m.seqNo >= 1
      modifies this
      ensures Valid() && ok == old(SaveAccepted(p, m))
      ensures ok <==> old(Trusts(p, m.session) && Follows(m))
      ensures old(latest.Just? && p in heads && heads[p].session == latest.value.session
                  && heads[p].seqNo < latest.value.seqNo
                  && m.session == latest.value.session && m.seqNo == latest.value.seqNo + 1
                  && m.parent == latest.value.id) ==>
                (ok <==> exists chain :: old(IsChain(c, accepted, files[latest.value.id], chain)
                                             && HeadOf(c, chain[latest.value.seqNo - heads[p].seqNo]) == heads[p]
                                             && Present(c, files, chain, latest.value.seqNo - heads[p].seqNo)))
      ensures ok ==> latest == Just(HeadOf(c, m)) && heads == old(heads)[p := HeadOf(c, m)]
      ensures !ok ==>
                heads ==
                if old(MayProceed(p, m.session)) && latest.Just? then old(heads)[p := latest.value] else old(heads)
      ensures ok ==> accepted == old(accepted) + {m} && c.mac(m) in files && files[c.mac(m)] == m
      ensures ok ==> files.Keys <= old(files).Keys + {c.mac(m)}
      ensures ok ==> Kept(if c.mac(m) in old(mtime) then old(mtime) else old(mtime)[c.mac(m) := now],
                          files.Keys, c.mac(m))
      ensures !ok ==> files == old(files) && mtime == old(mtime) && latest == old(latest) && accepted == old(accepted)
    {
      hide HeadsOk, WalkSucceeds, AllLinked, Kept, Linked, MayProceed, MayFollow, CryptoOk, FilesOk, Trusts, Follows,
           IsChain, Present;
      TrustIsAncestry(p, m.session);
      BehindExactly(p, m);
      FollowsIs(p, m);
      var check := CheckLatest(p, m.session);
      if check.Nothing? { return false; }
      ghost var adopted := heads;
      FollowsLatest(m);
      if !MayFollow(check.value, m) { return false; }
      FollowerLinked(m);
      Accept(p, m, now);
      assert adopted[p := HeadOf(c, m)] == old(heads)[p := HeadOf(c, m)];
      ok := true;
    }

    /** The checks of m against the latest manifest: it starts a chain, is the latest
        one again, or extends it. */
    predicate MayFollow(current: Maybe<Manifest>, m: Manifest) {
      if current.Nothing? || current.value.session != m.session then m.seqNo == 1 && m.parent == c.genesis(m.session)
      else c.mac(current.value) == c.mac(m) || (m.seqNo == current.value.seqNo + 1 && m.parent == c.mac(current.value))
    }

    function Latest(): Maybe<Manifest>
      requires Valid()
      reads this
    {
      if latest.Nothing? then Nothing else Just(files[latest.value.id])
    }

    lemma FollowsLatest(m: Manifest)
      requires Valid()
      ensures MayFollow(Latest(), m) <==> Follows(m)
    {
    }

    lemma FollowerLinked(m: Manifest)
      requires Valid() && m.seqNo >= 1 && MayFollow(Latest(), m)
      ensures Linked(c, accepted, m)
    {
      hide HeadsOk, AllLinked, Linked;
      if latest.Nothing? || files[latest.value.id].session != m.session {
        StartsChain(c, accepted, m);
      } else if c.mac(files[latest.value.id]) != c.mac(m) {
        ExtendsChain(c, accepted, files[latest.value.id], m);
      } else {
        AlreadyLinked(c, accepted, m);
      }
    }

    lemma MayStart(p: Process, m: Manifest)
      requires latest.Nothing? && m.seqNo == 1 && m.parent == c.genesis(m.session)
      ensures SaveAccepted(p, m)
    {
    }

    lemma NeedsToProceed(p: Process, m: Manifest)
      ensures SaveAccepted(p, m) ==> MayProceed(p, m.session)
    {
    }

    /** A process whose cached head is the latest one, or that has none, may extend it. */
    lemma HeadMayExtend(p: Process, m: Manifest)
      requires Valid() && latest.Just? && (p !in heads || heads[p] == latest.value)
      requires m.session == latest.value.session && m.seqNo == latest.value.seqNo + 1 && m.parent == latest.value.id
      ensures SaveAccepted(p, m)
    {
    }

    /** The writing half of save_retrieval_manifest. */
    method Accept(p: Process, m: Manifest, now: int)
      requires Valid() && Linked(c, accepted, m)
      modifies this
      ensures Valid()
      ensures latest == Just(HeadOf(c, m)) && heads == old(heads)[p := HeadOf(c, m)]
      ensures accepted == old(accepted) + {m} && c.mac(m) in files && files[c.mac(m)] == m
      ensures files.Keys <= old(files).Keys + {c.mac(m)}
      ensures Kept(if c.mac(m) in old(mtime) then old(mtime) else old(mtime)[c.mac(m) := now], files.Keys, c.mac(m))
    {
      hide AllLinked, Linked, HeadsOk, CryptoOk, FilesOk, Kept, Fewer;
      var id := c.mac(m);
      LinkedMore(c, accepted, m);
      HeadsMore(c, heads, accepted, p, m);
      FilesMore(c, files, accepted, m);
      if id !in files {
        files := files[id := m];
        mtime := mtime[id := now];
      }
      ghost var written := files;
      assert written == old(files)[id := m];
      accepted := accepted + {m};
      latest := Just(HeadOf(c, m));
      heads := heads[p := HeadOf(c, m)];
      Prune(id);
      FilesFewer(c, written, files, accepted);
    }

    static lemma StartsChain(c: Crypto, accepted: set<Manifest>, m: Manifest)
      requires m.seqNo == 1 && m.parent == c.genesis(m.session)
      ensures Linked(c, accepted, m)
    {
    }

    static lemma ExtendsChain(c: Crypto, accepted: set<Manifest>, p: Manifest, m: Manifest)
      requires AllLinked(c, accepted) && p in accepted && Precedes(c, p, m)
      ensures Linked(c, accepted, m)
    {
      assert Linked(c, accepted, p);
    }

    static lemma AlreadyLinked(c: Crypto, accepted: set<Manifest>, m: Manifest)
      requires AllLinked(c, accepted) && m in accepted
      ensures Linked(c, accepted, m)
    {
    }

    static lemma FilesFewer(c: Crypto, before: map<Id, Manifest>, after: map<Id, Manifest>, accepted: set<Manifest>)
      requires FilesOk(c, before, accepted) && Fewer(after, before)
      ensures FilesOk(c, after, accepted) && after.Keys <= before.Keys
      ensures forall id :: id in after ==> after[id] == before[id]
    {
    }

    static lemma FilesMore(c: Crypto, files: map<Id, Manifest>, accepted: set<Manifest>, m: Manifest)
      requires CryptoOk(c) && FilesOk(c, files, accepted)
      ensures FilesOk(c, files[c.mac(m) := m], accepted + {m})
      ensures c.mac(m) in files ==> files[c.mac(m) := m] == files
    {
    }

    static lemma HeadsMore(c: Crypto, heads: map<Process, Head>, accepted: set<Manifest>, p: Process, m: Manifest)
      requires HeadsOk(c, heads, accepted)
      ensures HeadsOk(c, heads[p := HeadOf(c, m)], accepted + {m})
    {
      var more := heads[p := HeadOf(c, m)];
      forall q | q in more ensures IsHead(c, more[q], accepted + {m}) {
        if q == p {
          assert m in accepted + {m};
        } else {
          assert IsHead(c, heads[q], accepted);
          var x :| x in accepted && HeadOf(c, x) == heads[q];
          assert x in accepted + {m};
        }
      }
    }

    static lemma LinkedMore(c: Crypto, accepted: set<Manifest>, m: Manifest)
      requires AllLinked(c, accepted) && Linked(c, accepted, m)
      ensures AllLinked(c, accepted + {m})
    {
      forall x | x in accepted + {m} ensures Linked(c, accepted + {m}, x) {
        assert Linked(c, accepted, x);
        if x.seqNo != 1 {
          var q :| q in accepted && Precedes(c, q, x);
          assert q in accepted + {m};
        }
      }
    }

    /** In every reachable state the walk from the latest manifest to a process's
        cached head, of the same session and a lower sequence number, succeeds
        exactly when the head is an ancestor and all between are still on disk. */
    lemma WalkExact(p: Process) returns (chain: seq<Manifest>)
      requires Valid() && latest.Just? && p in heads
      requires heads[p].session == latest.value.session && 1 <= heads[p].seqNo < latest.value.seqNo
      ensures IsChain(c, accepted, files[latest.value.id], chain)
      ensures WalkSucceeds(c, files, files[latest.value.id], heads[p].id, heads[p].seqNo) <==>
              && HeadOf(c, chain[latest.value.seqNo - heads[p].seqNo]) == heads[p]
              && Present(c, files, chain, latest.value.seqNo - heads[p].seqNo)
    {
      hide WalkSucceeds, Present, HeadsOk, AllLinked, Linked, IsChain, CryptoOk;
      assert FilesOk(c, files, accepted);
      var m := files[latest.value.id];
      chain := AncestorsAccepted(c, accepted, m);
      WalkIff(c, files, accepted, m, heads[p], chain);
    }

    /** A process more than RETENTION_LIMIT sequence numbers behind can never go on with its
        session, however the files are dated: some manifest in between is gone. */
    lemma TooFarBehind(p: Process, session: int)
      requires Valid() && latest.Just? && p in heads
      requires heads[p].session == latest.value.session && heads[p].seqNo >= 1
      requires latest.value.seqNo - heads[p].seqNo > RETENTION_LIMIT
      ensures !MayProceed(p, session)
    {
      hide WalkSucceeds, HeadsOk, AllLinked, Linked, Present;
      var m, depth := files[latest.value.id], latest.value.seqNo - heads[p].seqNo;
      var chain := WalkExact(p);
      if WalkSucceeds(c, files, m, heads[p].id, heads[p].seqNo) {
        PresentCounts(c, files, accepted, m, chain, depth);
        assert false;
      }
    }
  }

  /** That many files are on disk: the manifests between and the latest one. */
  lemma PresentCounts(c: Crypto, files: map<Id, Manifest>, accepted: set<Manifest>, m: Manifest, chain: seq<Manifest>,
                      depth: nat)
    requires IsChain(c, accepted, m, chain) && FilesOk(c, files, accepted) && CryptoOk(c) && 0 < depth <= |chain|
    requires Present(c, files, chain, depth) && c.mac(m) in files
    ensures depth <= |files|
  {
    ChainIds(c, accepted, m, chain, depth);
    var ids := IdsOf(c, chain, depth);
    forall id | id in ids ensures id in files.Keys {
      var i :| 0 <= i < depth && c.mac(chain[i]) == id;
    }
    SubsetSize(ids, files.Keys);
  }

  lemma NewId(c: Crypto, accepted: set<Manifest>, m: Manifest, chain: seq<Manifest>, i: nat, j: nat)
    requires CryptoOk(c) && IsChain(c, accepted, m, chain) && i < j < |chain|
    ensures c.mac(chain[i]) != c.mac(chain[j])
  {
    ChainSeqNo(c, accepted, m, chain, i);
    ChainSeqNo(c, accepted, m, chain, j);
  }

  function IdsOf(c: Crypto, chain: seq<Manifest>, n: nat): set<Id>
    requires n <= |chain|
  {
    set i | 0 <= i < n :: c.mac(chain[i])
  }

  /** The manifests of a chain have different ids. */
  lemma {:induction false} ChainIds(c: Crypto, accepted: set<Manifest>, m: Manifest, chain: seq<Manifest>, n: nat)
    requires CryptoOk(c) && IsChain(c, accepted, m, chain) && n <= |chain|
    ensures |IdsOf(c, chain, n)| == n
  {
    hide IsChain, CryptoOk;
    if n > 0 {
      ChainIds(c, accepted, m, chain, n - 1);
      forall i | 0 <= i < n - 1
        ensures c.mac(chain[i]) != c.mac(chain[n - 1])
      {
        NewId(c, accepted, m, chain, i, n - 1);
      }
      assert IdsOf(c, chain, n) == IdsOf(c, chain, n - 1) + {c.mac(chain[n - 1])};
    }
  }

  /** A store where process 0 saved the first manifest of the session only and process 1
      all others up to the n-th. */
  ghost predicate Reached(store: Store, session: int, n: nat)
    requires n >= 1
    reads store
  {
    && store.Valid()
    && 0 in store.heads && store.heads[0] == HeadOf(store.c, ChainOf(store.c, session, 1))
    && store.latest == Just(HeadOf(store.c, ChainOf(store.c, session, n)))
    && (1 !in store.heads || store.heads[1] == store.latest.value)
  }

  method SaveFirst(c: Crypto, session: int, now: int) returns (store: Store)
    requires CryptoOk(c)
    ensures fresh(store) && store.c == c && Reached(store, session, 1)
  {
    hide Store.Valid, Store.SaveAccepted, Store.Trusts, Store.Follows, CryptoOk;
    store := new Store(c);
    store.MayStart(0, ChainOf(c, session, 1));
    var ok := store.Save(0, ChainOf(c, session, 1), now);
  }

  method SaveNext(store: Store, session: int, n: nat, now: int)
    requires n >= 1 && Reached(store, session, n)
    modifies store
    ensures Reached(store, session, n + 1)
  {
    hide Store.Valid, Store.SaveAccepted, Store.Trusts, Store.Follows;
    var next := ChainOf(store.c, session, n + 1);
    store.HeadMayExtend(1, next);
    var ok := store.Save(1, next, now);
  }

  method SaveLate(store: Store, session: int, n: nat, now: int) returns (ok: bool)
    requires n > RETENTION_LIMIT + 1 && Reached(store, session, n)
    modifies store
    ensures !ok && Reached(store, session, n)
  {
    hide Store.Valid, Store.SaveAccepted, Store.MayProceed, Store.Trusts, Store.Follows;
    var next := ChainOf(store.c, session, n + 1);
    store.TooFarBehind(0, session);
    store.NeedsToProceed(0, next);
    ok := store.Save(0, next, now);
  }

  /** Such states are reached: one process saves once, another one more than 256 times, and
      then a save of the first one that extends the latest manifest is rejected, although its
      cached head is an ancestor of it. */
  method LeftBehind(c: Crypto, session: int, more: nat, times: nat -> int) returns (store: Store, ok: bool)
    requires CryptoOk(c) && more > 256
    ensures fresh(store) && store.c == c && !ok && Reached(store, session, more + 1)
  {
    hide Reached, CryptoOk;
    store := SaveFirst(c, session, times(0));
    for n := 1 to more + 1
      invariant store.c == c && fresh(store) && Reached(store, session, n)
    {
      SaveNext(store, session, n, times(n));
    }
    ok := SaveLate(store, session, more + 1, times(more + 1));
  }

  /** As Reached, with every manifest of the session still on disk. */
  ghost predicate ReachedWhole(store: Store, session: int, n: nat)
    requires n >= 1
    reads store
  {
    && Reached(store, session, n) && |store.files| <= n
    && forall i :: 1 <= i <= n ==> store.c.mac(ChainOf(store.c, session, i)) in store.files
  }

  lemma KeptWhole(mtime: map<Id, int>, kept: set<Id>, latestId: Id)
    requires Kept(mtime, kept, latestId) && |mtime.Keys| <= 256
    ensures kept == mtime.Keys
  {
    if kept != mtime.Keys { SmallerSet(kept, mtime.Keys); }
  }

  method SaveFirstWhole(c: Crypto, session: int, now: int) returns (store: Store)
    requires CryptoOk(c)
    ensures fresh(store) && store.c == c && ReachedWhole(store, session, 1)
  {
    hide Store.Valid, Store.SaveAccepted, Store.Trusts, Store.Follows, CryptoOk, Kept;
    store := new Store(c);
    store.NoFiles();
    store.MayStart(0, ChainOf(c, session, 1));
    var ok := store.Save(0, ChainOf(c, session, 1), now);
    SubsetSize(store.files.Keys, {c.mac(ChainOf(c, session, 1))});
  }

  method SaveNextWhole(store: Store, session: int, n: nat, now: int)
    requires 1 <= n < 256 && ReachedWhole(store, session, n)
    modifies store
    ensures ReachedWhole(store, session, n + 1)
  {
    hide Store.Valid, Store.SaveAccepted, Store.Trusts, Store.Follows, Kept;
    var next := ChainOf(store.c, session, n + 1);
    store.HeadMayExtend(1, next);
    ghost var mtime, keys := store.mtime, store.files.Keys;
    store.FilesDated();
    var ok := store.Save(1, next, now);
    var id := store.c.mac(next);
    ghost var dated := if id in mtime then mtime else mtime[id := now];
    assert dated.Keys <= keys + {id};
    SubsetSize(dated.Keys, keys + {id});
    KeptWhole(dated, store.files.Keys, id);
  }

  /** The chain of the session, last one first. */
  function Backwards(c: Crypto, session: int, n: nat): seq<Manifest> {
    seq<Manifest>(n, j requires 0 <= j < n => ChainOf(c, session, n - j))
  }

  lemma ChainOfLink(c: Crypto, session: int, n: nat)
    requires n >= 1
    ensures ChainOf(c, session, n).parent ==
            if n == 1 then c.genesis(session) else c.mac(ChainOf(c, session, n - 1))
  {
  }

  lemma WholeChain(store: Store, session: int, n: nat)
    requires n >= 1 && ReachedWhole(store, session, n)
    ensures IsChain(store.c, store.accepted, ChainOf(store.c, session, n), Backwards(store.c, session, n))
    ensures Present(store.c, store.files, Backwards(store.c, session, n), n - 1)
    ensures store.latest.value.id in store.files && store.files[store.latest.value.id] == ChainOf(store.c, session, n)
  {
    hide AllLinked, HeadsOk, ChainOf;
    var c := store.c;
    forall i | 1 <= i <= n
      ensures ChainOf(c, session, i) in store.accepted && c.mac(ChainOf(c, session, i)) in store.files
      ensures store.files[c.mac(ChainOf(c, session, i))] == ChainOf(c, session, i)
    {
      assert c.mac(store.files[c.mac(ChainOf(c, session, i))]) == c.mac(ChainOf(c, session, i));
    }
    var chain := Backwards(c, session, n);
    forall i | 0 <= i < n - 1 ensures Precedes(c, chain[i + 1], chain[i]) {
      ChainOfLink(c, session, n - i);
    }
    ChainOfLink(c, session, 1);
  }

  /** The n-th manifest of the session is the latest one and process 0's head. */
  ghost predicate Leads(store: Store, session: int, n: nat)
    requires n >= 1
    reads store
  {
    && store.Valid() && store.latest == Just(HeadOf(store.c, ChainOf(store.c, session, n)))
    && 0 in store.heads && store.heads[0] == store.latest.value
  }

  lemma LeadsMeans(store: Store, session: int, n: nat)
    requires n >= 1 && Leads(store, session, n)
    ensures 0 in store.heads && store.latest == Just(store.heads[0])
    ensures store.heads[0].session == session && store.heads[0].seqNo == n
  {
  }

  method SaveCaughtUp(store: Store, session: int, n: nat, now: int) returns (ok: bool)
    requires n >= 2 && ReachedWhole(store, session, n)
    modifies store
    ensures ok && Leads(store, session, n + 1)
  {
    hide Store.Valid, Store.SaveAccepted, Store.Trusts, Store.Follows, IsChain, Present, Kept;
    var next := ChainOf(store.c, session, n + 1);
    WholeChain(store, session, n);
    ghost var chain := Backwards(store.c, session, n);
    assert chain[n - 1] == ChainOf(store.c, session, 1);
    ok := store.Save(0, next, now);
  }

  /** Such states are reached, too: one process saves once, another one saves at least once
      and no more often than retention keeps, and the next save of the first one is accepted,
      whatever the times: its head moves along all that the other one saved. */
  method CaughtUp(c: Crypto, session: int, more: nat, times: nat -> int) returns (store: Store, ok: bool)
    requires CryptoOk(c) && 1 <= more < 256
    ensures fresh(store) && store.c == c && ok && Leads(store, session, more + 2)
    ensures 0 in store.heads && store.latest == Just(store.heads[0])
    ensures store.heads[0].session == session && store.heads[0].seqNo == more + 2
  {
    hide ReachedWhole, CryptoOk, Leads;
    store := SaveFirstWhole(c, session, times(0));
    for n := 1 to more + 1
      invariant store.c == c && fresh(store) && ReachedWhole(store, session, n)
    {
      SaveNextWhole(store, session, n, times(n));
    }
    ok := SaveCaughtUp(store, session, more + 1, times(more + 1));
    LeadsMeans(store, session, more + 2);
  }

  /** The n-th manifest of a session in which every manifest extends the one before. */
  function ChainOf(c: Crypto, session: int, n: nat): (m: Manifest)
    requires n >= 1
    ensures m.session == session && m.seqNo == n
  {
    if n == 1 then Manifest(c.genesis(session), 1, session, 0)
    else Manifest(c.mac(ChainOf(c, session, n - 1)), n, session, 0)
  }
}
