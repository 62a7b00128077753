/** The PKBVEC01 file of pipeline.py, seen as 4-byte words: an 8-word header,
    then per block 384 x 4 data words (dimension major, lane minor) and 4 ids. */
module AosoaFile {

  /** A stored word; float words are opaque bit patterns. */
  type Word = int
  type File = seq<Word>

  const DIM := 384
  const LANES := 4
  const HEADER_BYTES := 32
  const BLOCK_BYTES := 6160
  const IDS_OFFSET_IN_BLOCK := 6144
  const HEADER_WORDS := 8
  const BLOCK_WORDS := 1540
  const DATA_WORDS := 1536
  const MAGIC_LO: Word := 0x56424B50 // "PKBV"
  const MAGIC_HI: Word := 0x31304345 // "EC01"
  const TOMB: Word := -1

  type Vec = v: seq<Word> | |v| == 384 witness seq(384, _ => 0)

  function NumBlocks(n: nat): nat { (n + LANES - 1) / LANES }

  function DataWord(i: nat, d: nat): nat { HEADER_WORDS + (i / LANES) * BLOCK_WORDS + d * LANES + i % LANES }

  function IdWord(i: nat): nat { HEADER_WORDS + (i / LANES) * BLOCK_WORDS + DATA_WORDS + i % LANES }

  /** _tomb_offset: the byte offset of the index-th lane's id. */
  function TombOffset(i: nat): nat {
    HEADER_BYTES + (i / LANES) * BLOCK_BYTES + IDS_OFFSET_IN_BLOCK + (i % LANES) * 4
  }

  /** Header and size agree with n written vectors. */
  predicate WellFormed(f: File) {
    && |f| >= HEADER_WORDS
    && f[0] == MAGIC_LO && f[1] == MAGIC_HI
    && f[2] == DIM && f[3] == LANES && f[4] >= 0 && f[5] == NumBlocks(f[4]) && f[6] == BLOCK_BYTES
    && |f| == HEADER_WORDS + f[5] * BLOCK_WORDS
  }

  function NumVectors(f: File): nat
    requires WellFormed(f)
  {
    f[4]
  }

  function NumLanes(f: File): nat
    requires WellFormed(f)
  {
    f[5] * LANES
  }

  lemma InBounds(f: File, i: nat, d: nat)
    requires WellFormed(f) && i < NumLanes(f) && d < DIM
    ensures HEADER_WORDS <= DataWord(i, d) < |f| && HEADER_WORDS <= IdWord(i) < |f|
  {
    assert i / LANES <= f[5] - 1;
    assert (i / LANES) * BLOCK_WORDS <= (f[5] - 1) * BLOCK_WORDS;
  }

  function LaneId(f: File, i: nat): Word
    requires WellFormed(f) && i < NumLanes(f)
  {
    InBounds(f, i, 0);
    f[IdWord(i)]
  }

  function LaneVec(f: File, i: nat): Vec
    requires WellFormed(f) && i < NumLanes(f)
  {
    seq(DIM, d requires 0 <= d < DIM => (InBounds(f, i, d); f[DataWord(i, d)]))
  }

  /** Lanes past the written vectors are padding. */
  ghost predicate Padded(f: File)
    requires WellFormed(f)
  {
    forall i: nat :: NumVectors(f) <= i < NumLanes(f) ==> LaneId(f, i) == TOMB
  }

  /** Where a lane's words are: 1540 words a block behind the 8 of the header, in each the
      384 rows of four lanes and then the four ids. */
  lemma LaneWords(f: File, i: nat, d: nat)
    requires WellFormed(f) && i < NumLanes(f) && d < 384
    ensures f[..4] == [0x56424B50, 0x31304345, 384, 4] && f[6] == 6160
    ensures 8 + (i / 4) * 1540 + 1539 < |f|
    ensures LaneVec(f, i)[d] == f[8 + (i / 4) * 1540 + d * 4 + i % 4]
    ensures LaneId(f, i) == f[8 + (i / 4) * 1540 + 1536 + i % 4]
    ensures TombOffset(i) == 4 * (8 + (i / 4) * 1540 + 1536 + i % 4)
  {
    InBounds(f, i, d);
    assert i / LANES <= f[5] - 1;
    assert (i / LANES) * BLOCK_WORDS <= (f[5] - 1) * BLOCK_WORDS;
  }

  // ------------------------------------------------------------ encoding

  /** to_aosoa. */
  method ToAosoa(vectors: seq<Vec>) returns (aosoa: array3<Word>, ids: array2<Word>)
    ensures fresh(aosoa) && fresh(ids)
    ensures aosoa.Length0 == ids.Length0 == NumBlocks(|vectors|)
    ensures aosoa.Length1 == DIM && aosoa.Length2 == ids.Length1 == LANES
    ensures forall b, d, l :: 0 <= b < aosoa.Length0 && 0 <= d < DIM && 0 <= l < LANES ==>
              aosoa[b, d, l] == if b * LANES + l < |vectors| then vectors[b * LANES + l][d] else 0
    ensures forall b, l :: 0 <= b < ids.Length0 && 0 <= l < LANES ==>
              ids[b, l] == if b * LANES + l < |vectors| then b * LANES + l else TOMB
  {
    var n := |vectors|;
    var blocks := NumBlocks(n);
    var padded := new Word[blocks * LANES, DIM]((_, _) => 0);
    var flat := new Word[blocks * LANES](_ => TOMB);
    var i := 0;
    while i < n
      invariant 0 <= i <= n
      invariant forall r, d :: 0 <= r < blocks * LANES && 0 <= d < DIM ==>
                  padded[r, d] == if r < i then vectors[r][d] else 0
      invariant forall r :: 0 <= r < blocks * LANES ==> flat[r] == if r < i then r else TOMB
    {
      forall d | 0 <= d < DIM { padded[i, d] := vectors[i][d]; }
      flat[i] := i;
      i := i + 1;
    }
    aosoa := new Word[blocks, DIM, LANES]((b, d, l)
      requires 0 <= b < blocks && 0 <= d < DIM && 0 <= l < LANES reads padded => padded[b * LANES + l, d]);
    ids := new Word[blocks, LANES]((b, l) requires 0 <= b < blocks && 0 <= l < LANES reads flat => flat[b * LANES + l]);
  }

  function HeaderWords(n: nat, blocks: nat): seq<Word> {
    [MAGIC_LO, MAGIC_HI, DIM, LANES, n, blocks, BLOCK_BYTES, 0]
  }

  /** One block in C order: data[384][4], then ids[4]. */
  function BlockWords(aosoa: array3<Word>, ids: array2<Word>, b: nat): seq<Word>
    requires aosoa.Length1 == DIM && aosoa.Length2 == ids.Length1 == LANES
    requires b < aosoa.Length0 == ids.Length0
    reads aosoa, ids
  {
    seq(DATA_WORDS, w requires 0 <= w < DATA_WORDS reads aosoa => aosoa[b, w / LANES, w % LANES]) +
    seq(LANES, l requires 0 <= l < LANES reads ids => ids[b, l])
  }

  /** write_binary. */
  method WriteBinary(aosoa: array3<Word>, ids: array2<Word>, n: nat) returns (f: File)
    requires aosoa.Length0 == ids.Length0 == NumBlocks(n)
    requires aosoa.Length1 == DIM && aosoa.Length2 == ids.Length1 == LANES
    ensures WellFormed(f) && NumVectors(f) == n && NumLanes(f) == NumBlocks(n) * LANES
    ensures forall i: nat :: i < NumLanes(f) ==> LaneId(f, i) == ids[i / LANES, i % LANES]
    ensures forall i: nat, d: nat :: i < NumLanes(f) && d < DIM ==>
              LaneVec(f, i)[d] == aosoa[i / LANES, d, i % LANES]
    ensures |f| == 8 + ((n + 3) / 4) * 1540
    ensures f[..8] == [0x56424B50, 0x31304345, 384, 4, n, (n + 3) / 4, 6160, 0]
  {
    var blocks := aosoa.Length0;
    f := HeaderWords(n, blocks);
    var b := 0;
    while b < blocks
      invariant 0 <= b <= blocks && |f| == HEADER_WORDS + b * BLOCK_WORDS
      invariant f[..HEADER_WORDS] == HeaderWords(n, blocks)
      invariant forall c :: 0 <= c < b ==>
                  f[HEADER_WORDS + c * BLOCK_WORDS..HEADER_WORDS + (c + 1) * BLOCK_WORDS] == BlockWords(aosoa, ids, c)
    {
      ghost var before := f;
      f := f + BlockWords(aosoa, ids, b);
      forall c | 0 <= c < b + 1
        ensures f[HEADER_WORDS + c * BLOCK_WORDS..HEADER_WORDS + (c + 1) * BLOCK_WORDS] == BlockWords(aosoa, ids, c)
      {
        if c < b {
          assert f[HEADER_WORDS + c * BLOCK_WORDS..HEADER_WORDS + (c + 1) * BLOCK_WORDS] ==
                 before[HEADER_WORDS + c * BLOCK_WORDS..HEADER_WORDS + (c + 1) * BLOCK_WORDS];
        }
      }
      b := b + 1;
    }
    assert f[..HEADER_WORDS][0] == MAGIC_LO && f[..HEADER_WORDS][1] == MAGIC_HI;
    assert f[..HEADER_WORDS][2] == DIM && f[..HEADER_WORDS][3] == LANES && f[..HEADER_WORDS][4] == n;
    assert f[..HEADER_WORDS][5] == blocks && f[..HEADER_WORDS][6] == BLOCK_BYTES;
    forall i: nat | i < NumLanes(f)
      ensures LaneId(f, i) == ids[i / LANES, i % LANES]
      ensures forall d: nat :: d < DIM ==> LaneVec(f, i)[d] == aosoa[i / LANES, d, i % LANES]
    {
      var c := i / LANES;
      var words := f[HEADER_WORDS + c * BLOCK_WORDS..HEADER_WORDS + (c + 1) * BLOCK_WORDS];
      assert words == BlockWords(aosoa, ids, c);
      assert words[DATA_WORDS + i % LANES] == ids[c, i % LANES];
      forall d: nat | d < DIM ensures LaneVec(f, i)[d] == aosoa[c, d, i % LANES] {
        InBounds(f, i, d);
        assert words[d * LANES + i % LANES] == aosoa[c, d, i % LANES];
      }
    }
  }

  /** Lane by lane, the file holds these vectors under these ids and then padding. */
  ghost predicate Holds(f: File, vectors: seq<Vec>, ids: seq<int>)
    requires |vectors| == |ids|
  {
    && WellFormed(f) && NumVectors(f) == |vectors| && |vectors| <= NumLanes(f) && Padded(f)
    && forall i: nat :: i < |vectors| ==> LaneId(f, i) == ids[i] && LaneVec(f, i) == vectors[i]
  }

  /** Encoding n vectors and decoding lane by lane gives them back, each under
      the id it was given; the last block is filled up with -1. */
  method EncodeWithIds(vectors: seq<Vec>, ids: seq<int>) returns (f: File)
    requires |vectors| == |ids|
    ensures Holds(f, vectors, ids)
  {
    var aosoa, localIds := ToAosoa(vectors);
    var blocks := NumBlocks(|vectors|);
    var globalIds := new Word[blocks, LANES]((_, _) => TOMB);
    var i := 0;
    while i < |ids|
      invariant 0 <= i <= |ids|
      invariant forall b, l :: 0 <= b < blocks && 0 <= l < LANES ==>
                  globalIds[b, l] == if b * LANES + l < i then ids[b * LANES + l] else TOMB
      modifies globalIds
    {
      globalIds[i / LANES, i % LANES] := ids[i];
      i := i + 1;
    }
    f := WriteBinary(aosoa, globalIds, |vectors|);
    forall j: nat | j < |vectors| ensures LaneVec(f, j) == vectors[j] {
      assert (j / LANES) * LANES + j % LANES == j;
      forall d: nat | d < DIM ensures LaneVec(f, j)[d] == vectors[j][d] {
      }
    }
  }

  // ------------------------------------------------------------ tombstones

  /** The tombstone's byte offset is the lane's own 4-aligned id word, in bounds;
      different lanes have different ones and none is a data word. */
  lemma TombOffsetIsIdWord(f: File, i: nat, j: nat, d: nat)
    requires WellFormed(f) && i < NumLanes(f) && j < NumLanes(f) && d < DIM
    ensures TombOffset(i) == 4 * IdWord(i) && TombOffset(i) + 4 <= 4 * |f|
    ensures i != j ==> TombOffset(i) + 4 <= TombOffset(j) || TombOffset(j) + 4 <= TombOffset(i)
    ensures IdWord(i) != DataWord(j, d)
  {
    InBounds(f, i, 0);
    var bi, bj := i / LANES, j / LANES;
    if bi < bj {
      assert (bi + 1) * BLOCK_WORDS <= bj * BLOCK_WORDS;
    } else if bj < bi {
      assert (bj + 1) * BLOCK_WORDS <= bi * BLOCK_WORDS;
    }
  }

  /** tombstone: seek to the offset and overwrite four bytes with -1. */
  function Tombstoned(f: File, tombOffset: nat): File
    requires tombOffset % 4 == 0 && tombOffset / 4 < |f|
  {
    f[tombOffset / 4 := TOMB]
  }

  /** A tombstone changes exactly one lane's id and no vector. */
  lemma TombstoneOneLane(f: File, i: nat)
    requires WellFormed(f) && i < NumLanes(f)
    ensures TombOffset(i) % 4 == 0 && TombOffset(i) / 4 < |f|
    ensures var g := Tombstoned(f, TombOffset(i));
            && WellFormed(g) && NumVectors(g) == NumVectors(f) && NumLanes(g) == NumLanes(f)
            && forall j: nat :: j < NumLanes(f) ==>
                 LaneVec(g, j) == LaneVec(f, j) && LaneId(g, j) == if j == i then TOMB else LaneId(f, j)
  {
    InBounds(f, i, 0);
    TombOffsetIsIdWord(f, i, i, 0);
    var g := Tombstoned(f, TombOffset(i));
    forall j: nat | j < NumLanes(f)
      ensures LaneVec(g, j) == LaneVec(f, j) && LaneId(g, j) == if j == i then TOMB else LaneId(f, j)
    {
      TombOffsetIsIdWord(f, i, j, 0);
      TombOffsetIsIdWord(f, j, j, 0);
      InBounds(f, j, 0);
      forall d: nat | d < DIM ensures LaneVec(g, j)[d] == LaneVec(f, j)[d] {
        InBounds(f, j, d);
        TombOffsetIsIdWord(f, i, j, d);
      }
    }
  }

  /** The lanes a search would look at. */
  ghost function LiveLanes(f: File): set<nat>
    requires WellFormed(f)
  {
    set i: nat | 0 <= i < NumLanes(f) && LaneId(f, i) >= 0
  }
}
