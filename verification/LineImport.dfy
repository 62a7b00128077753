/** load_line_messages of profiler.py: exported chat logs appended one after the
    other, cut into blocks and merged by the largest count of each message. */
module LineImport {
  import opened Common

  /** A line of the log, by the pattern it matches. */
  datatype Line = Header(contact: string) | Day(date: int) | Said(time: string, sender: string, text: string) | Other

  /** The key of a message. */
  datatype Key = Key(contact: string, date: Maybe<int>, time: string, sender: string, text: string)

  type Block = seq<Key>

  datatype Message = Message(key: Key, isSelf: bool)

  // ------------------------------------------------------------ blocks

  /** The variables of the line loop. */
  datatype Scan = Scan(blocks: seq<Block>, contact: string, date: Maybe<int>, previous: Maybe<int>, block: Block)

  function Flushed(s: Scan): seq<Block> { if s.block == [] then s.blocks else s.blocks + [s.block] }

  function Step(s: Scan, line: Line): Scan {
    match line
    case Header(contact) => Scan(Flushed(s), contact, Nothing, Nothing, [])
    case Day(date) =>
      if s.previous.Just? && date < s.previous.value then Scan(Flushed(s), s.contact, Just(date), Just(date), [])
      else s.(date := Just(date), previous := Just(date))
    case Said(time, sender, text) => s.(block := s.block + [Key(s.contact, s.date, time, sender, text)])
    case Other => s
  }

  function Run(s: Scan, lines: seq<Line>): Scan
    decreases |lines|
  {
    if lines == [] then s else Run(Step(s, lines[0]), lines[1..])
  }

  const UNKNOWN := "\U{4E0D}\U{660E}"
  const START := Scan([], UNKNOWN, Nothing, Nothing, [])

  function BlocksOf(lines: seq<Line>): seq<Block> { Flushed(Run(START, lines)) }

  /** The line loop. */
  method ReadBlocks(lines: seq<Line>) returns (blocks: seq<Block>)
    ensures blocks == BlocksOf(lines)
  {
    blocks := [];
    var contact, date, previous, block: Block := UNKNOWN, Nothing, Nothing, [];
    for i := 0 to |lines|
      invariant Run(START, lines) == Run(Scan(blocks, contact, date, previous, block), lines[i..])
    {
      assert lines[i..][1..] == lines[i + 1..];
      match lines[i] {
        case Header(named) =>
          if block != [] { blocks := blocks + [block]; }
          block, contact, date, previous := [], named, Nothing, Nothing;
        case Day(day) =>
          if previous.Just? && day < previous.value {
            if block != [] { blocks := blocks + [block]; }
            block := [];
          }
          date, previous := Just(day), Just(day);
        case Said(time, sender, text) =>
          block := block + [Key(contact, date, time, sender, text)];
        case Other =>
      }
    }
    if block != [] { blocks := blocks + [block]; }
  }

  lemma {:induction false} RunConcat(s: Scan, a: seq<Line>, b: seq<Line>)
    ensures Run(s, a + b) == Run(Run(s, a), b)
    decreases |a|
  {
    if a == [] {
      assert a + b == b;
    } else {
      assert (a + b)[1..] == a[1..] + b;
      RunConcat(Step(s, a[0]), a[1..], b);
    }
  }

  lemma {:induction false} RunKeepsBlocks(before: seq<Block>, s: Scan, lines: seq<Line>)
    ensures Run(s.(blocks := before + s.blocks), lines) == Run(s, lines).(blocks := before + Run(s, lines).blocks)
    decreases |lines|
  {
    if lines != [] {
      var t := Step(s, lines[0]);
      assert before + (s.blocks + [s.block]) == (before + s.blocks) + [s.block];
      assert Step(s.(blocks := before + s.blocks), lines[0]) == t.(blocks := before + t.blocks);
      RunKeepsBlocks(before, t, lines[1..]);
    }
  }

  ghost predicate Headed(lines: seq<Line>) { lines != [] && lines[0].Header? }

  /** An export that starts with its header is cut into the same blocks wherever it is appended. */
  lemma BlocksConcat(log: seq<Line>, batch: seq<Line>)
    requires Headed(batch)
    ensures BlocksOf(log + batch) == BlocksOf(log) + BlocksOf(batch)
  {
    RunConcat(START, log, batch);
    var s := Run(START, log);
    var rest := batch[1..];
    var clean := Step(START, batch[0]);
    RunKeepsBlocks(Flushed(s), clean, rest);
    assert Flushed(s) + clean.blocks == Flushed(s);
    assert Step(s, batch[0]) == clean.(blocks := Flushed(s) + clean.blocks);
    var e := Run(clean, rest);
    assert Flushed(s) + (e.blocks + [e.block]) == (Flushed(s) + e.blocks) + [e.block];
  }

  /** Inside a block dates never go back. */
  ghost predicate DatesForward(b: Block) {
    forall i, j :: 0 <= i < j < |b| && b[i].date.Just? ==> b[j].date.Just? && b[i].date.value <= b[j].date.value
  }

  ghost predicate ScanForward(s: Scan) {
    && (forall b :: b in s.blocks ==> DatesForward(b))
    && DatesForward(s.block) && s.date == s.previous
    && forall k :: k in s.block && k.date.Just? ==> s.date.Just? && k.date.value <= s.date.value
  }

  lemma {:induction false} RunForward(s: Scan, lines: seq<Line>)
    requires ScanForward(s)
    ensures ScanForward(Run(s, lines))
    decreases |lines|
  {
    if lines != [] { RunForward(Step(s, lines[0]), lines[1..]); }
  }

  lemma BlocksForward(lines: seq<Line>)
    ensures forall b :: b in BlocksOf(lines) ==> DatesForward(b)
  {
    RunForward(START, lines);
  }

  // ------------------------------------------------------------ merging by maximum

  /** The keys in the order they are first met. */
  function FirstSeen(keys: seq<Key>): seq<Key> {
    if keys == [] then []
    else
      var before, k := keys[..|keys| - 1], keys[|keys| - 1];
      if k in before then FirstSeen(before) else FirstSeen(before) + [k]
  }

  ghost predicate Distinct(keys: seq<Key>) { forall i, j :: 0 <= i < j < |keys| ==> keys[i] != keys[j] }

  lemma {:induction false} FirstSeenMeaning(keys: seq<Key>)
    ensures Distinct(FirstSeen(keys))
    ensures forall k :: k in FirstSeen(keys) <==> k in keys
  {
    if keys != [] {
      var before, k := keys[..|keys| - 1], keys[|keys| - 1];
      FirstSeenMeaning(before);
      assert keys == before + [k];
    }
  }

  function Flat(blocks: seq<Block>): seq<Key> {
    if blocks == [] then [] else Flat(blocks[..|blocks| - 1]) + blocks[|blocks| - 1]
  }

  function Count(b: Block, k: Key): nat { multiset(b)[k] }

  /** The largest count of a key in any block. */
  function MaxCount(blocks: seq<Block>, k: Key): nat {
    if blocks == [] then 0
    else
      var before, now := MaxCount(blocks[..|blocks| - 1], k), Count(blocks[|blocks| - 1], k);
      if now > before then now else before
  }

  lemma {:induction false} MaxCountMeaning(blocks: seq<Block>, k: Key)
    ensures forall b :: b in blocks ==> Count(b, k) <= MaxCount(blocks, k)
    ensures MaxCount(blocks, k) > 0 ==> exists b :: b in blocks && Count(b, k) == MaxCount(blocks, k)
    ensures MaxCount(blocks, k) > 0 <==> k in Flat(blocks)
  {
    if blocks != [] {
      var n := |blocks| - 1;
      MaxCountMeaning(blocks[..n], k);
      assert blocks == blocks[..n] + [blocks[n]];
      assert Count(blocks[n], k) > 0 <==> k in blocks[n] by { assert k in multiset(blocks[n]) <==> k in blocks[n]; }
      if Count(blocks[n], k) > MaxCount(blocks[..n], k) { assert blocks[n] in blocks; }
    }
  }

  /** Who speaks in each contact's blocks. */
  function Senders(keys: seq<Key>): map<string, set<string>> {
    if keys == [] then map[]
    else
      var before := Senders(keys[..|keys| - 1]);
      var k := keys[|keys| - 1];
      before[k.contact := (if k.contact in before then before[k.contact] else {}) + {k.sender}]
  }

  ghost predicate Speaks(keys: seq<Key>, contact: string, sender: string) {
    exists k :: k in keys && k.contact == contact && k.sender == sender
  }

  lemma {:induction false} SendersMeaning(keys: seq<Key>, c: string, x: string)
    ensures Speaks(keys, c, x) <==> c in Senders(keys) && x in Senders(keys)[c]
    ensures c in Senders(keys) ==> Senders(keys)[c] != {}
  {
    if keys != [] {
      var n := |keys| - 1;
      SendersMeaning(keys[..n], c, x);
      assert keys == keys[..n] + [keys[n]];
      assert Speaks(keys, c, x) <==> Speaks(keys[..n], c, x) || (keys[n].contact == c && keys[n].sender == x) by {
        if keys[n].contact == c && keys[n].sender == x { assert keys[n] in keys; }
      }
    }
  }

  // ------------------------------------------------------------ who is the owner

  const JIBUN := "\U{81EA}\U{5206}"
  const SELF := "self"

  /** The contacts with exactly two senders. */
  function Dyads(per: map<string, set<string>>): set<string> { set c | c in per && |per[c]| == 2 }

  ghost predicate InAllDyads(per: map<string, set<string>>, x: string) {
    forall c :: c in Dyads(per) ==> x in per[c]
  }

  /** At least two dyads, and x is the one sender common to them all. */
  ghost predicate IsFallback(per: map<string, set<string>>, x: string) {
    |Dyads(per)| >= 2 && forall y :: InAllDyads(per, y) <==> y == x
  }

  ghost function FallbackOf(per: map<string, set<string>>): Maybe<string> {
    if x :| IsFallback(per, x) then Just(x) else Nothing
  }

  function SelfOf(senders: set<string>, declared: string, fallback: Maybe<string>): Maybe<string> {
    if declared != "" && declared in senders then Just(declared)
    else if JIBUN in senders then Just(JIBUN)
    else if SELF in senders then Just(SELF)
    else if fallback.Just? && fallback.value in senders then fallback
    else Nothing
  }

  lemma SendersStep(keys: seq<Key>, k: Key)
    ensures var before := Senders(keys);
            Senders(keys + [k]) ==
            before[k.contact := (if k.contact in before then before[k.contact] else {}) + {k.sender}]
  {
    assert (keys + [k])[..|keys|] == keys;
  }

  lemma FlatStep(blocks: seq<Block>, i: nat)
    requires i < |blocks|
    ensures Flat(blocks[..i + 1]) == Flat(blocks[..i]) + blocks[i]
  {
    assert blocks[..i + 1][..i] == blocks[..i];
  }

  /** contacts are the keys of per, each once. */
  ghost predicate KeysOf(contacts: seq<string>, per: map<string, set<string>>) {
    && (forall c :: c in contacts <==> c in per)
    && forall i, j :: 0 <= i < j < |contacts| ==> contacts[i] != contacts[j]
  }

  method AddSenders(block: Block, contacts0: seq<string>, per0: map<string, set<string>>, ghost flat: seq<Key>)
    returns (contacts: seq<string>, per: map<string, set<string>>)
    requires per0 == Senders(flat) && KeysOf(contacts0, per0)
    ensures per == Senders(flat + block) && KeysOf(contacts, per)
  {
    hide Senders;
    contacts, per := contacts0, per0;
    assert flat + block[..0] == flat;
    for j := 0 to |block|
      invariant per == Senders(flat + block[..j]) && KeysOf(contacts, per)
    {
      var k := block[j];
      SendersStep(flat + block[..j], k);
      assert flat + block[..j + 1] == (flat + block[..j]) + [k];
      if k.contact !in per {
        contacts := contacts + [k.contact];
        per := per[k.contact := {}];
      }
      per := per[k.contact := per[k.contact] + {k.sender}];
    }
    assert block[..|block|] == block;
  }

  /** per_contact of _resolve_self_by_contact, with its keys in insertion order. */
  method SendersByContact(blocks: seq<Block>) returns (contacts: seq<string>, per: map<string, set<string>>)
    ensures per == Senders(Flat(blocks)) && KeysOf(contacts, per)
  {
    contacts, per := [], map[];
    for i := 0 to |blocks|
      invariant per == Senders(Flat(blocks[..i])) && KeysOf(contacts, per)
    {
      FlatStep(blocks, i);
      contacts, per := AddSenders(blocks[i], contacts, per, Flat(blocks[..i]));
    }
    assert blocks[..|blocks|] == blocks;
  }

  /** common_fallback. */
  method CommonFallback(contacts: seq<string>, per: map<string, set<string>>) returns (fallback: Maybe<string>)
    requires KeysOf(contacts, per)
    ensures fallback == FallbackOf(per)
  {
    var dyads: seq<string> := [];
    for i := 0 to |contacts|
      invariant forall c :: c in dyads <==> c in contacts[..i] && |per[c]| == 2
      invariant forall i, j :: 0 <= i < j < |dyads| ==> dyads[i] != dyads[j]
    {
      if |per[contacts[i]]| == 2 { dyads := dyads + [contacts[i]]; }
    }
    assert contacts[..|contacts|] == contacts;
    DyadCount(dyads, per);
    if |dyads| < 2 { return Nothing; }
    var common := per[dyads[0]];
    for i := 1 to |dyads|
      invariant forall x :: x in common <==> forall j :: 0 <= j < i ==> x in per[dyads[j]]
    {
      common := common * per[dyads[i]];
    }
    forall x ensures x in common <==> InAllDyads(per, x) {
      if x in common {
        forall c | c in Dyads(per) ensures x in per[c] {
          var j :| 0 <= j < |dyads| && dyads[j] == c;
        }
      }
      if InAllDyads(per, x) {
        forall j | 0 <= j < |dyads| ensures x in per[dyads[j]] { assert dyads[j] in Dyads(per); }
      }
    }
    if |common| == 1 {
      OnlyElement(common);
      var x :| x in common;
      assert IsFallback(per, x);
      return Just(x);
    }
    FallbackIsOnly(per, common);
    return Nothing;
  }

  lemma DyadCount(dyads: seq<string>, per: map<string, set<string>>)
    requires forall c :: c in dyads <==> c in per && |per[c]| == 2
    requires forall i, j :: 0 <= i < j < |dyads| ==> dyads[i] != dyads[j]
    ensures |dyads| == |Dyads(per)|
    ensures |Dyads(per)| < 2 ==> FallbackOf(per) == Nothing
  {
    DistinctSize(dyads);
    assert Dyads(per) == set c | c in dyads;
  }

  lemma OnlyElement(common: set<string>)
    requires |common| == 1
    ensures exists x :: x in common
    ensures forall x, y :: x in common && y in common ==> x == y
  {
    var x :| x in common;
    assert |common - {x}| == 0;
    forall y | y in common ensures y == x { assert y !in common - {x}; }
  }

  lemma FallbackIsOnly(per: map<string, set<string>>, common: set<string>)
    requires forall x :: x in common <==> InAllDyads(per, x)
    ensures FallbackOf(per).Just? ==> |common| == 1
  {
    if x :| IsFallback(per, x) { assert common == {x}; }
  }

  ghost predicate Writers(keys: seq<Key>, c: string, a: string, b: string) {
    a != b && forall y :: Speaks(keys, c, y) <==> y == a || y == b
  }

  /** Exactly two people write to the contact. */
  ghost predicate TwoWrite(keys: seq<Key>, c: string) { exists a, b :: Writers(keys, c, a, b) }

  ghost predicate CommonWriter(keys: seq<Key>, y: string) { forall c :: TwoWrite(keys, c) ==> Speaks(keys, c, y) }

  /** x is the only one who writes to every such contact, and there are at least two of them. */
  ghost predicate OnlyCommon(keys: seq<Key>, x: string) {
    && (exists c1, c2 :: c1 != c2 && TwoWrite(keys, c1) && TwoWrite(keys, c2))
    && forall y :: CommonWriter(keys, y) <==> y == x
  }

  /** x writes to the contact as the owner: under the declared name, else under one of the two
      stock names, else as the only one common to all contacts of two. */
  ghost predicate OwnerIn(keys: seq<Key>, declared: string, c: string, x: string) {
    && Speaks(keys, c, x)
    && if declared != "" && Speaks(keys, c, declared) then x == declared
       else if Speaks(keys, c, "\U{81EA}\U{5206}") then x == "\U{81EA}\U{5206}"
       else if Speaks(keys, c, "self") then x == "self"
       else OnlyCommon(keys, x)
  }

  lemma PairOf(s: set<string>, a: string, b: string)
    requires a != b && forall y :: y in s <==> y == a || y == b
    ensures |s| == 2
  {
    assert s == {a, b};
  }

  lemma TwoOf(s: set<string>) returns (a: string, b: string)
    requires |s| == 2
    ensures a != b && forall y :: y in s <==> y == a || y == b
  {
    a :| a in s;
    var rest := s - {a};
    assert |rest| == 1;
    b :| b in rest;
    assert |rest - {b}| == 0;
    forall y | y in s ensures y == a || y == b { assert y !in rest - {b}; }
  }

  lemma DyadMeaning(keys: seq<Key>, c: string)
    ensures c in Dyads(Senders(keys)) <==> TwoWrite(keys, c)
  {
    hide Senders;
    var per := Senders(keys);
    forall y ensures Speaks(keys, c, y) <==> c in per && y in per[c] { SendersMeaning(keys, c, y); }
    if c in per && |per[c]| == 2 {
      var a, b := TwoOf(per[c]);
      assert Writers(keys, c, a, b);
    }
    if a, b :| Writers(keys, c, a, b) {
      assert Speaks(keys, c, a);
      PairOf(per[c], a, b);
    }
  }

  lemma TwoDyads(of: set<string>)
    ensures |of| >= 2 <==> exists a, b :: a != b && a in of && b in of
  {
    if |of| >= 2 {
      SomeElement(of);
      var a :| a in of;
      SomeElement(of - {a});
      var b :| b in of - {a};
    }
    if a, b :| a != b && a in of && b in of { SubsetSize({a, b}, of); }
  }

  lemma SomeElement(of: set<string>)
    requires |of| > 0
    ensures exists x :: x in of
  {
    var x :| x in of;
  }

  lemma FallbackMeaning(keys: seq<Key>, x: string)
    ensures IsFallback(Senders(keys), x) <==> OnlyCommon(keys, x)
  {
    hide Senders, Dyads, TwoWrite, Speaks;
    var per := Senders(keys);
    forall c ensures c in Dyads(per) <==> TwoWrite(keys, c) { DyadMeaning(keys, c); }
    TwoDyads(Dyads(per));
    hide InAllDyads, CommonWriter;
    forall y ensures InAllDyads(per, y) <==> CommonWriter(keys, y) {
      CommonMeaning(keys, y);
    }
    assert (exists a, b :: a != b && a in Dyads(per) && b in Dyads(per)) <==>
           exists c1, c2 :: c1 != c2 && TwoWrite(keys, c1) && TwoWrite(keys, c2);
  }

  lemma CommonMeaning(keys: seq<Key>, y: string)
    ensures InAllDyads(Senders(keys), y) <==> CommonWriter(keys, y)
  {
    hide Senders, TwoWrite, Speaks;
    var per := Senders(keys);
    forall c
      ensures c in Dyads(per) <==> TwoWrite(keys, c)
      ensures c in per ==> (y in per[c] <==> Speaks(keys, c, y))
    {
      DyadMeaning(keys, c);
      SendersMeaning(keys, c, y);
    }
  }

  lemma FallbackIs(keys: seq<Key>, x: string)
    ensures FallbackOf(Senders(keys)) == Just(x) <==> OnlyCommon(keys, x)
  {
    hide Senders, OnlyCommon, Dyads, InAllDyads;
    FallbackMeaning(keys, x);
    var per := Senders(keys);
    if IsFallback(per, x) {
      var y := FallbackOf(per).value;
      assert IsFallback(per, y) && InAllDyads(per, y);
    }
  }

  /** The three tiers, by who writes where. */
  lemma OwnerMeaning(keys: seq<Key>, declared: string, c: string, x: string)
    ensures var per := Senders(keys);
            c in per && SelfOf(per[c], declared, FallbackOf(per)) == Just(x) <==> OwnerIn(keys, declared, c, x)
  {
    hide Senders, OnlyCommon, FallbackOf, Speaks;
    FallbackIs(keys, x);
    SendersMeaning(keys, c, x);
    SendersMeaning(keys, c, declared);
    SendersMeaning(keys, c, JIBUN);
    SendersMeaning(keys, c, SELF);
  }

  lemma OwnersResolved(blocks: seq<Block>, declared: string)
    ensures var per := Senders(Flat(blocks));
            forall c, x :: c in per && SelfOf(per[c], declared, FallbackOf(per)) == Just(x) <==>
                           OwnerIn(Flat(blocks), declared, c, x)
  {
    hide Senders, FallbackOf, SelfOf, OwnerIn;
    forall c, x
      ensures c in Senders(Flat(blocks))
              && SelfOf(Senders(Flat(blocks))[c], declared, FallbackOf(Senders(Flat(blocks)))) == Just(x) <==>
              OwnerIn(Flat(blocks), declared, c, x)
    {
      OwnerMeaning(Flat(blocks), declared, c, x);
    }
  }

  /** _resolve_self_by_contact. */
  method ResolveSelfByContact(blocks: seq<Block>, declared: string) returns (resolved: map<string, string>)
    ensures var per := Senders(Flat(blocks));
            forall c :: if c in per && SelfOf(per[c], declared, FallbackOf(per)).Just?
                        then c in resolved && resolved[c] == SelfOf(per[c], declared, FallbackOf(per)).value
                        else c !in resolved
    ensures forall c, x :: (c in resolved && resolved[c] == x) <==> OwnerIn(Flat(blocks), declared, c, x)
  {
    OwnersResolved(blocks, declared);
    var contacts, per := SendersByContact(blocks);
    var fallback := CommonFallback(contacts, per);
    resolved := map[];
    for i := 0 to |contacts|
      invariant forall c :: if c in contacts[..i] && SelfOf(per[c], declared, fallback).Just?
                            then c in resolved && resolved[c] == SelfOf(per[c], declared, fallback).value
                            else c !in resolved
    {
      var contact := contacts[i];
      var senders := per[contact];
      if declared != "" && declared in senders {
        resolved := resolved[contact := declared];
      } else if JIBUN in senders {
        resolved := resolved[contact := JIBUN];
      } else if SELF in senders {
        resolved := resolved[contact := SELF];
      } else if fallback.Just? && fallback.value in senders {
        resolved := resolved[contact := fallback.value];
      }
    }
    assert contacts[..|contacts|] == contacts;
  }

  // ------------------------------------------------------------ messages

  ghost predicate IsSelf(blocks: seq<Block>, declared: string, k: Key) {
    var per := Senders(Flat(blocks));
    k.contact in per && SelfOf(per[k.contact], declared, FallbackOf(per)) == Just(k.sender)
  }

  function Copies(m: Message, n: nat): seq<Message> { if n == 0 then [] else Copies(m, n - 1) + [m] }

  ghost function Expanded(order: seq<Key>, blocks: seq<Block>, declared: string): seq<Message> {
    if order == [] then []
    else
      var k := order[|order| - 1];
      Expanded(order[..|order| - 1], blocks, declared)
          + Copies(Message(k, IsSelf(blocks, declared, k)), MaxCount(blocks, k))
  }

  /** What a log means: every message as often as the block that has it most, in
      the order of first appearance. */
  ghost function MessagesOf(blocks: seq<Block>, declared: string): seq<Message> {
    Expanded(FirstSeen(Flat(blocks)), blocks, declared)
  }

  lemma {:induction false} FirstSeenConcat(a: seq<Key>, b: seq<Key>)
    requires forall k :: k in b ==> k in a
    ensures FirstSeen(a + b) == FirstSeen(a)
  {
    if b == [] {
      assert a + b == a;
    } else {
      var n := |b| - 1;
      assert (a + b)[..|a| + n] == a + b[..n] && (a + b)[|a| + n] == b[n];
      FirstSeenConcat(a, b[..n]);
    }
  }

  /** No block of more has more of a message than some block of blocks. */
  ghost predicate Absorbed(blocks: seq<Block>, more: seq<Block>) {
    forall b, k :: b in more ==> Count(b, k) <= MaxCount(blocks, k)
  }

  /** What is already there as often adds nothing. */
  lemma {:induction false} MaxCountAbsorbs(blocks: seq<Block>, more: seq<Block>, k: Key)
    requires Absorbed(blocks, more)
    ensures MaxCount(blocks + more, k) == MaxCount(blocks, k)
  {
    if more == [] {
      assert blocks + more == blocks;
    } else {
      var n := |more| - 1;
      assert (blocks + more)[..|blocks| + n] == blocks + more[..n] && (blocks + more)[|blocks| + n] == more[n];
      assert forall b :: b in more[..n] ==> b in more;
      MaxCountAbsorbs(blocks, more[..n], k);
      assert more[n] in more;
    }
  }

  lemma {:induction false} FlatConcat(a: seq<Block>, b: seq<Block>)
    ensures Flat(a + b) == Flat(a) + Flat(b)
  {
    if b == [] {
      assert a + b == a;
    } else {
      var n := |b| - 1;
      assert (a + b)[..|a| + n] == a + b[..n] && (a + b)[|a| + n] == b[n];
      FlatConcat(a, b[..n]);
    }
  }

  lemma {:induction false} FlatMembers(blocks: seq<Block>, k: Key)
    ensures k in Flat(blocks) <==> exists b :: b in blocks && k in b
  {
    if blocks != [] {
      var n := |blocks| - 1;
      FlatMembers(blocks[..n], k);
      assert blocks == blocks[..n] + [blocks[n]];
      if k in blocks[n] { assert blocks[n] in blocks; }
    }
  }

  lemma {:induction false} SendersAbsorb(a: seq<Key>, b: seq<Key>)
    requires forall k :: k in b ==> k in a
    ensures Senders(a + b) == Senders(a)
  {
    if b == [] {
      assert a + b == a;
    } else {
      var n := |b| - 1;
      var k := b[n];
      assert a + b == (a + b[..n]) + [k] && k in b;
      SendersAbsorb(a, b[..n]);
      SendersStep(a + b[..n], k);
      assert Speaks(a, k.contact, k.sender);
      SendersMeaning(a, k.contact, k.sender);
      assert Senders(a)[k.contact] + {k.sender} == Senders(a)[k.contact];
    }
  }

  lemma {:induction false} ExpandedSame(order: seq<Key>, a: seq<Block>, b: seq<Block>, declared: string)
    requires forall k :: MaxCount(a, k) == MaxCount(b, k)
    requires Senders(Flat(a)) == Senders(Flat(b))
    ensures Expanded(order, a, declared) == Expanded(order, b, declared)
  {
    if order != [] { ExpandedSame(order[..|order| - 1], a, b, declared); }
  }

  /** Every message is as often in the fullest block of either. */
  ghost predicate SameCounts(a: seq<Block>, b: seq<Block>) { forall k :: MaxCount(a, k) == MaxCount(b, k) }

  lemma SameCountsSameMessages(a: seq<Block>, b: seq<Block>, extra: seq<Key>, declared: string)
    requires Flat(b) == Flat(a) + extra && SameCounts(a, b)
    ensures MessagesOf(b, declared) == MessagesOf(a, declared)
  {
    hide Senders, Flat, FirstSeen, Expanded, MaxCount;
    forall k | k in extra ensures k in Flat(a) {
      assert k in Flat(b);
      MaxCountMeaning(b, k);
      MaxCountMeaning(a, k);
    }
    FirstSeenConcat(Flat(a), extra);
    SendersAbsorb(Flat(a), extra);
    ExpandedSame(FirstSeen(Flat(a)), b, a, declared);
  }

  /** Blocks that only go on where others end mean the same, order and owner included,
      exactly when no message is in any of them more often. */
  lemma SameMessages(a: seq<Block>, b: seq<Block>, extra: seq<Key>, declared: string)
    requires Flat(b) == Flat(a) + extra
    ensures MessagesOf(b, declared) == MessagesOf(a, declared) <==> SameCounts(a, b)
  {
    hide Flat, MessagesOf;
    if MessagesOf(b, declared) == MessagesOf(a, declared) {
      forall k ensures MaxCount(a, k) == MaxCount(b, k) {
        LoadedAsOften(b, declared, k);
        LoadedAsOften(a, declared, k);
      }
    } else if SameCounts(a, b) {
      SameCountsSameMessages(a, b, extra, declared);
    }
  }

  lemma CountsAbsorbed(blocks: seq<Block>, more: seq<Block>)
    ensures SameCounts(blocks, blocks + more) <==> Absorbed(blocks, more)
  {
    hide Count;
    if Absorbed(blocks, more) {
      forall k ensures MaxCount(blocks, k) == MaxCount(blocks + more, k) { MaxCountAbsorbs(blocks, more, k); }
    } else if SameCounts(blocks, blocks + more) {
      forall b, k | b in more ensures Count(b, k) <= MaxCount(blocks, k) {
        MaxCountMeaning(blocks + more, k);
        assert b in blocks + more;
      }
    }
  }

  /** Blocks change nothing, not even the order or who is the owner, exactly when
      every message in them is there as often already. */
  lemma BlocksAbsorbed(blocks: seq<Block>, more: seq<Block>, declared: string)
    ensures MessagesOf(blocks + more, declared) == MessagesOf(blocks, declared) <==> Absorbed(blocks, more)
  {
    hide Flat, MaxCount, MessagesOf, Absorbed;
    FlatConcat(blocks, more);
    SameMessages(blocks, blocks + more, Flat(more), declared);
    CountsAbsorbed(blocks, more);
  }

  lemma {:induction false} MembersAbsorbed(blocks: seq<Block>, more: seq<Block>)
    requires forall b :: b in more ==> b in blocks
    ensures Absorbed(blocks, more)
  {
    forall b, k | b in more ensures Count(b, k) <= MaxCount(blocks, k) { MaxCountMeaning(blocks, k); }
  }

  /** Importing the same headed export twice gives the same list as importing it once,
      whatever the log held before. */
  lemma ImportTwice(log: seq<Line>, batch: seq<Line>, declared: string)
    requires Headed(batch)
    ensures MessagesOf(BlocksOf(log + batch + batch), declared) == MessagesOf(BlocksOf(log + batch), declared)
  {
    BlocksConcat(log + batch, batch);
    BlocksConcat(log, batch);
    MembersAbsorbed(BlocksOf(log + batch), BlocksOf(batch));
    BlocksAbsorbed(BlocksOf(log + batch), BlocksOf(batch), declared);
  }

  /** Without its header a repeated export can double a message: the dates do not
      go back, so both copies fall into one block. */
  lemma HeaderlessDoubles(contact: string, date: int, time: string, sender: string, text: string, declared: string)
    ensures var log, batch := [Header(contact)], [Day(date), Said(time, sender, text)];
            var k := Key(contact, Just(date), time, sender, text);
            && HowOften(MessagesOf(BlocksOf(log + batch), declared), k) == 1
            && HowOften(MessagesOf(BlocksOf(log + batch + batch), declared), k) == 2
  {
    hide MessagesOf, HowOften;
    var log, batch := [Header(contact)], [Day(date), Said(time, sender, text)];
    var k := Key(contact, Just(date), time, sender, text);
    var s0 := Scan([], contact, Nothing, Nothing, []);
    var s1 := Scan([], contact, Just(date), Just(date), [k]);
    var s2 := Scan([], contact, Just(date), Just(date), [k, k]);
    assert Run(START, log) == s0;
    assert batch[1..] == [Said(time, sender, text)] && batch[1..][1..] == [];
    RunPair(s0, Day(date), Said(time, sender, text));
    RunPair(s1, Day(date), Said(time, sender, text));
    assert Run(s0, batch) == s1 && Run(s1, batch) == s2;
    RunConcat(START, log, batch);
    RunConcat(START, log + batch, batch);
    assert BlocksOf(log + batch) == [[k]] && BlocksOf(log + batch + batch) == [[k, k]];
    OneBlockLoaded([k], declared, k);
    OneBlockLoaded([k, k], declared, k);
  }

  /** A message before any header is of an unknown contact, one before any date has none. */
  lemma BeforeHeaders(date: int, contact: string, time: string, sender: string, text: string)
    ensures BlocksOf([Said(time, sender, text)]) == [[Key("\U{4E0D}\U{660E}", Nothing, time, sender, text)]]
    ensures BlocksOf([Day(date), Said(time, sender, text)]) ==
            [[Key("\U{4E0D}\U{660E}", Just(date), time, sender, text)]]
    ensures BlocksOf([Header(contact), Said(time, sender, text)]) == [[Key(contact, Nothing, time, sender, text)]]
  {
    var said := Said(time, sender, text);
    assert [said][1..] == [];
    assert Run(START, [said]) == Run(Step(START, said), []) == Step(START, said);
    RunPair(START, Day(date), said);
    RunPair(START, Header(contact), said);
    OneMessage(START, said);
    OneMessage(Step(START, Day(date)), said);
    OneMessage(Step(START, Header(contact)), said);
  }

  lemma OneMessage(s: Scan, said: Line)
    requires said.Said? && s.blocks == [] && s.block == []
    ensures Flushed(Step(s, said)) == [[Key(s.contact, s.date, said.time, said.sender, said.text)]]
  {
    assert s.block + [Key(s.contact, s.date, said.time, said.sender, said.text)] ==
           [Key(s.contact, s.date, said.time, said.sender, said.text)];
  }

  lemma RunPair(s: Scan, a: Line, b: Line)
    ensures Run(s, [a, b]) == Step(Step(s, a), b)
  {
    assert [a, b][1..] == [b] && [b][1..] == [];
    assert Run(Step(s, a), [b]) == Run(Step(Step(s, a), b), []);
  }

  lemma OneBlockLoaded(b: Block, declared: string, k: Key)
    ensures HowOften(MessagesOf([b], declared), k) == Count(b, k)
  {
    hide MessagesOf, HowOften;
    LoadedAsOften([b], declared, k);
    OneBlockMax(b, k);
  }

  lemma OneBlockMax(b: Block, k: Key)
    ensures MaxCount([b], k) == Count(b, k)
  {
    assert [b][..0] == [];
  }

  /** So does importing it again after other headed exports. */
  lemma ImportAgainLater(log: seq<Line>, batch: seq<Line>, between: seq<Line>, declared: string)
    requires Headed(batch) && Headed(between)
    ensures MessagesOf(BlocksOf(log + batch + between + batch), declared) ==
            MessagesOf(BlocksOf(log + batch + between), declared)
  {
    BlocksConcat(log + batch + between, batch);
    BlocksConcat(log + batch, between);
    BlocksConcat(log, batch);
    MembersAbsorbed(BlocksOf(log + batch + between), BlocksOf(batch));
    BlocksAbsorbed(BlocksOf(log + batch + between), BlocksOf(batch), declared);
  }

  // ------------------------------------------------------------ exports without a header

  ghost predicate Headerless(lines: seq<Line>) { forall l :: l in lines ==> !l.Header? }

  /** Does the line end the open block? */
  predicate Cuts(previous: Maybe<int>, line: Line) { line.Day? && previous.Just? && line.date < previous.value }

  /** The messages of a headerless batch before its first cut: they join the open block. */
  function Glued(contact: string, date: Maybe<int>, lines: seq<Line>): Block
    decreases |lines|
  {
    if lines == [] || Cuts(date, lines[0]) then []
    else
      match lines[0]
      case Said(time, sender, text) => [Key(contact, date, time, sender, text)] + Glued(contact, date, lines[1..])
      case Day(day) => Glued(contact, Just(day), lines[1..])
      case _ => Glued(contact, date, lines[1..])
  }

  lemma MaxCountConcat(a: seq<Block>, b: seq<Block>, k: Key)
    ensures MaxCount(a + b, k) == if MaxCount(b, k) > MaxCount(a, k) then MaxCount(b, k) else MaxCount(a, k)
  {
    MaxCountMeaning(a, k);
    MaxCountMeaning(b, k);
    MaxCountMeaning(a + b, k);
    FlatConcat(a, b);
    assert forall x :: x in a + b <==> x in a || x in b;
  }

  lemma FlushedCounts(s: Scan, k: Key)
    ensures MaxCount(Flushed(s), k) ==
            if Count(s.block, k) > MaxCount(s.blocks, k) then Count(s.block, k) else MaxCount(s.blocks, k)
  {
    MaxCountStep(s.blocks, s.block, k);
    Present(s.block, k);
  }

  /** Two scans at the same place of the same conversation, where s has every message as
      often as t. */
  ghost predicate Fuller(s: Scan, t: Scan) {
    && s.contact == t.contact && s.date == t.date == s.previous == t.previous
    && (forall k :: Count(t.block, k) <= Count(s.block, k))
    && (forall k :: MaxCount(t.blocks, k) <= MaxCount(s.blocks, k))
  }

  lemma FullerFlushed(s: Scan, t: Scan)
    requires Fuller(s, t)
    ensures forall k :: MaxCount(Flushed(t), k) <= MaxCount(Flushed(s), k)
  {
    hide Count, MaxCount, Flushed;
    forall k ensures MaxCount(Flushed(t), k) <= MaxCount(Flushed(s), k) {
      FlushedCounts(s, k);
      FlushedCounts(t, k);
    }
  }

  lemma FullerStep(s: Scan, t: Scan, line: Line)
    requires Fuller(s, t) && !line.Header?
    ensures Fuller(Step(s, line), Step(t, line))
  {
    hide MaxCount, Flushed, Count;
    FullerFlushed(s, t);
    if line.Said? {
      forall k ensures Count(Step(t, line).block, k) <= Count(Step(s, line).block, k) {
        CountAppend(s.block, Step(s, line).block[|s.block|..], k);
        CountAppend(t.block, Step(t, line).block[|t.block|..], k);
      }
    }
    if line.Day? { forall k ensures Count([], k) == 0 { Present([], k); } }
  }

  lemma CountAppend(a: Block, b: Block, k: Key)
    ensures Count(a + b, k) == Count(a, k) + Count(b, k)
  {
  }

  lemma {:induction false} Lockstep(s: Scan, t: Scan, lines: seq<Line>)
    requires Fuller(s, t) && Headerless(lines)
    ensures Fuller(Run(s, lines), Run(t, lines))
    decreases |lines|
  {
    hide Fuller, Step;
    if lines != [] {
      assert lines[0] in lines;
      FullerStep(s, t, lines[0]);
      Lockstep(Step(s, lines[0]), Step(t, lines[0]), lines[1..]);
    }
  }

  /** What a second pass over the same lines adds: the glued messages to the block that
      is open, and then only blocks that the first pass has as well. */
  lemma {:induction false} SecondPass(s: Scan, t: Scan, lines: seq<Line>) returns (rest: seq<Block>)
    requires Headerless(lines) && s.contact == t.contact && s.date == s.previous && t.date == t.previous
    ensures Flushed(Run(t, lines)) == Flushed(t.(block := t.block + Glued(t.contact, t.date, lines))) + rest
    ensures forall k :: MaxCount(rest, k) <= MaxCount(Flushed(Run(s, lines)), k)
    decreases |lines|
  {
    hide Count;
    if lines == [] {
      rest := [];
      assert t.block + [] == t.block;
    } else {
      hide MaxCount;
      var line, later := lines[0], lines[1..];
      assert line in lines;
      var s', t' := Step(s, line), Step(t, line);
      if Cuts(t.date, line) {
        rest := AfterCut(s', t', Flushed(t), later);
        assert t.block + [] == t.block;
      } else {
        rest := SecondPass(s', t', later);
        assert t'.block + Glued(t'.contact, t'.date, later) == t.block + Glued(t.contact, t.date, lines);
      }
    }
  }

  lemma AfterCut(s: Scan, t: Scan, before: seq<Block>, lines: seq<Line>) returns (rest: seq<Block>)
    requires Headerless(lines) && s.contact == t.contact && s.date == t.date == s.previous == t.previous
    requires t.blocks == before && t.block == []
    ensures Flushed(Run(t, lines)) == before + rest
    ensures forall k :: MaxCount(rest, k) <= MaxCount(Flushed(Run(s, lines)), k)
  {
    hide Run, Glued;
    var clean := t.(blocks := []);
    forall k ensures Count(clean.block, k) == 0 { Present([], k); }
    assert Fuller(s, clean);
    Lockstep(s, clean, lines);
    rest := Flushed(Run(clean, lines));
    FullerFlushed(Run(s, lines), Run(clean, lines));
    RunKeepsBlocks(before, clean, lines);
    assert before + clean.blocks == before && clean.(blocks := before) == t;
    var e := Run(clean, lines);
    assert before + (e.blocks + [e.block]) == (before + e.blocks) + [e.block];
  }

  lemma {:induction false} HeaderlessContact(s: Scan, lines: seq<Line>)
    requires Headerless(lines)
    ensures Run(s, lines).contact == s.contact
    decreases |lines|
  {
    if lines != [] {
      assert lines[0] in lines;
      HeaderlessContact(Step(s, lines[0]), lines[1..]);
    }
  }

  lemma FlatFlushed(s: Scan, more: Block)
    ensures Flat(Flushed(s.(block := s.block + more))) == Flat(Flushed(s)) + more
  {
    hide Flat;
    FlatConcat(s.blocks, [s.block]);
    FlatConcat(s.blocks, [s.block + more]);
    OneBlock(s.block);
    OneBlock(s.block + more);
    assert Flat(s.blocks) + (s.block + more) == (Flat(s.blocks) + s.block) + more;
    if s.block == [] { assert s.block + more == more && Flat(s.blocks) + [] == Flat(s.blocks); }
    if more == [] { assert s.block + more == s.block && Flat(Flushed(s)) + [] == Flat(Flushed(s)); }
  }

  /** Importing a headerless export a second time changes nothing exactly when no message
      is, in the block that is open after the first import and in what is glued to it
      together, more often than in some block that was there after the first import. */
  lemma HeaderlessTwice(log: seq<Line>, batch: seq<Line>, declared: string)
    requires Headerless(batch)
    ensures var once, end := BlocksOf(log + batch), Run(START, log + batch);
            MessagesOf(BlocksOf(log + batch + batch), declared) == MessagesOf(once, declared) <==>
            forall k :: Count(end.block, k) + Count(Glued(end.contact, end.date, batch), k) <= MaxCount(once, k)
  {
    hide Run, MessagesOf, Flat, MaxCount, Count, Glued, Flushed;
    var s, end := Run(START, log), Run(START, log + batch);
    RunConcat(START, log, batch);
    RunConcat(START, log + batch, batch);
    RunForward(START, log);
    RunForward(START, log + batch);
    HeaderlessContact(s, batch);
    var glued := Glued(end.contact, end.date, batch);
    var rest := SecondPass(s, end, batch);
    var fuller := end.(block := end.block + glued);
    var once, twice := Flushed(end), Flushed(fuller) + rest;
    FlatConcat(Flushed(fuller), rest);
    FlatFlushed(end, glued);
    assert Flat(twice) == Flat(once) + (glued + Flat(rest));
    SameMessages(once, twice, glued + Flat(rest), declared);
    forall k
      ensures MaxCount(twice, k) == MaxCount(once, k) <==> Count(end.block, k) + Count(glued, k) <= MaxCount(once, k)
    {
      FlushedCounts(end, k);
      FlushedCounts(fuller, k);
      CountAppend(end.block, glued, k);
      MaxCountConcat(Flushed(fuller), rest, k);
    }
  }

  /** The last date line of a batch. */
  function LastDay(lines: seq<Line>): Maybe<int> {
    if lines == [] then Nothing
    else if lines[|lines| - 1].Day? then Just(lines[|lines| - 1].date)
    else LastDay(lines[..|lines| - 1])
  }

  lemma {:induction false} EndsOnLastDay(s: Scan, lines: seq<Line>)
    requires Headerless(lines) && LastDay(lines).Just?
    ensures Run(s, lines).date == LastDay(lines)
    decreases |lines|
  {
    hide Run;
    var n := |lines| - 1;
    assert lines == lines[..n] + [lines[n]] && lines[n] in lines;
    RunConcat(s, lines[..n], [lines[n]]);
    RunOne(Run(s, lines[..n]), lines[n]);
    if !lines[n].Day? { EndsOnLastDay(s, lines[..n]); }
  }

  lemma RunOne(s: Scan, line: Line)
    ensures Run(s, [line]) == Step(s, line)
  {
    assert Run(Step(s, line), [line][1..]) == Step(s, line);
  }

  /** A headerless export that begins on one day and ends on a later one is cut off by
      its own first date line: importing it again changes nothing. */
  lemma HeaderlessLaterEnd(log: seq<Line>, batch: seq<Line>, declared: string)
    requires Headerless(batch) && batch != [] && batch[0].Day?
    requires LastDay(batch).Just? && batch[0].date < LastDay(batch).value
    ensures MessagesOf(BlocksOf(log + batch + batch), declared) == MessagesOf(BlocksOf(log + batch), declared)
  {
    hide MessagesOf, MaxCount, Run;
    var end := Run(START, log + batch);
    RunConcat(START, log, batch);
    EndsOnLastDay(Run(START, log), batch);
    assert Glued(end.contact, end.date, batch) == [];
    HeaderlessTwice(log, batch, declared);
    forall k ensures Count(end.block, k) + Count([], k) <= MaxCount(BlocksOf(log + batch), k) {
      FlushedCounts(end, k);
    }
  }

  /** One that does not end later than it begins is glued to its own last block, and
      importing it again changes nothing exactly when no message is, in its last and its
      first block together, more often than in some block of the first import. */
  lemma HeaderlessSameEnd(log: seq<Line>, batch: seq<Line>, declared: string)
    requires Headerless(batch) && batch != [] && batch[0].Day?
    requires LastDay(batch).Just? && batch[0].date >= LastDay(batch).value
    ensures var once, end := BlocksOf(log + batch), Run(START, log + batch);
            MessagesOf(BlocksOf(log + batch + batch), declared) == MessagesOf(once, declared) <==>
            forall k :: Count(end.block, k) + Count(Glued(end.contact, Nothing, batch), k) <= MaxCount(once, k)
  {
    hide MessagesOf, BlocksOf, MaxCount, Run, Count;
    var end := Run(START, log + batch);
    RunConcat(START, log, batch);
    EndsOnLastDay(Run(START, log), batch);
    assert Glued(end.contact, end.date, batch) == Glued(end.contact, Nothing, batch);
    HeaderlessTwice(log, batch, declared);
  }

  // ------------------------------------------------------------ counting

  function HowOften(messages: seq<Message>, k: Key): nat {
    if messages == [] then 0
    else HowOften(messages[..|messages| - 1], k) + if messages[|messages| - 1].key == k then 1 else 0
  }

  lemma {:induction false} HowOftenCopies(messages: seq<Message>, m: Message, n: nat, k: Key)
    ensures HowOften(messages + Copies(m, n), k) == HowOften(messages, k) + if m.key == k then n else 0
  {
    if n == 0 {
      assert messages + Copies(m, 0) == messages;
    } else {
      HowOftenCopies(messages, m, n - 1, k);
      var all := messages + Copies(m, n);
      assert all[..|all| - 1] == messages + Copies(m, n - 1);
    }
  }

  lemma {:induction false} HowOftenExpanded(order: seq<Key>, blocks: seq<Block>, declared: string, k: Key)
    requires Distinct(order)
    ensures HowOften(Expanded(order, blocks, declared), k) == if k in order then MaxCount(blocks, k) else 0
  {
    if order != [] {
      var n := |order| - 1;
      HowOftenExpanded(order[..n], blocks, declared, k);
      HowOftenCopies(Expanded(order[..n], blocks, declared), Message(order[n], IsSelf(blocks, declared, order[n])),
                     MaxCount(blocks, order[n]), k);
      assert order == order[..n] + [order[n]];
      assert k in order <==> k in order[..n] || k == order[n];
    }
  }

  /** A message is loaded as often as the block that has it most. */
  lemma LoadedAsOften(blocks: seq<Block>, declared: string, k: Key)
    ensures HowOften(MessagesOf(blocks, declared), k) == MaxCount(blocks, k)
  {
    FirstSeenMeaning(Flat(blocks));
    HowOftenExpanded(FirstSeen(Flat(blocks)), blocks, declared, k);
    MaxCountMeaning(blocks, k);
  }

  // ------------------------------------------------------------ the loader

  lemma FirstSeenStep(keys: seq<Key>, k: Key)
    ensures FirstSeen(keys + [k]) == if k in keys then FirstSeen(keys) else FirstSeen(keys) + [k]
  {
    assert (keys + [k])[..|keys|] == keys;
  }

  /** Counter: the keys of a block in order of appearance, with their counts. */
  method CountKeys(block: Block) returns (order: seq<Key>, counts: map<Key, nat>)
    ensures order == FirstSeen(block) && forall k :: k in counts <==> k in block
    ensures forall k :: k in counts ==> counts[k] == Count(block, k)
  {
    hide FirstSeen;
    order, counts := [], map[];
    assert FirstSeen(block[..0]) == [] by { NothingSeen(block); }
    for i := 0 to |block|
      invariant order == FirstSeen(block[..i]) && forall k :: k in counts <==> k in block[..i]
      invariant forall k :: k in counts ==> counts[k] == Count(block[..i], k)
    {
      var k := block[i];
      FirstSeenStep(block[..i], k);
      assert block[..i + 1] == block[..i] + [k];
      assert forall x :: Count(block[..i + 1], x) == Count(block[..i], x) + if x == k then 1 else 0;
      assert k !in block[..i] ==> Count(block[..i], k) == 0 by {
        assert k in multiset(block[..i]) <==> k in block[..i];
      }
      if k in counts {
        counts := counts[k := counts[k] + 1];
      } else {
        order := order + [k];
        counts := counts[k := 1];
      }
    }
    assert block[..|block|] == block;
  }

  lemma NothingSeen(block: Block)
    ensures FirstSeen(block[..0]) == []
  {
  }

  lemma SeenMember(keys: seq<Key>, k: Key)
    ensures k in FirstSeen(keys) <==> k in keys
  {
    FirstSeenMeaning(keys);
  }

  lemma {:induction false} FirstSeenTwice(a: seq<Key>, b: seq<Key>)
    ensures FirstSeen(a + FirstSeen(b)) == FirstSeen(a + b)
  {
    if b != [] {
      var before, k := b[..|b| - 1], b[|b| - 1];
      FirstSeenTwice(a, before);
      SeenMember(before, k);
      assert b == before + [k];
      TwiceStep(a, before, FirstSeen(before), k);
    }
  }

  lemma TwiceStep(a: seq<Key>, before: seq<Key>, seen: seq<Key>, k: Key)
    requires seen == FirstSeen(before) && FirstSeen(a + seen) == FirstSeen(a + before) && (k in seen <==> k in before)
    ensures FirstSeen(a + FirstSeen(before + [k])) == FirstSeen(a + (before + [k]))
  {
    hide FirstSeen;
    FirstSeenStep(before, k);
    FirstSeenStep(a + before, k);
    assert a + (before + [k]) == (a + before) + [k];
    if k in before {
      assert k in a + before;
    } else {
      FirstSeenStep(a + seen, k);
      assert a + (seen + [k]) == (a + seen) + [k];
      assert k in a + seen <==> k in a + before;
    }
  }

  /** merged_max over the first blocks, with its keys in insertion order. */
  ghost predicate Merged(order: seq<Key>, merged: map<Key, nat>, blocks: seq<Block>) {
    && order == FirstSeen(Flat(blocks))
    && forall k :: if MaxCount(blocks, k) > 0 then k in merged && merged[k] == MaxCount(blocks, k) else k !in merged
  }

  lemma MaxCountStep(blocks: seq<Block>, b: Block, k: Key)
    ensures MaxCount(blocks + [b], k) == if Count(b, k) > MaxCount(blocks, k) then Count(b, k) else MaxCount(blocks, k)
  {
    assert (blocks + [b])[..|blocks|] == blocks;
  }

  /** One block against merged_max. */
  method MergeBlock(order0: seq<Key>, merged0: map<Key, nat>, block: Block, ghost blocks: seq<Block>)
    returns (order: seq<Key>, merged: map<Key, nat>)
    requires Merged(order0, merged0, blocks)
    ensures Merged(order, merged, blocks + [block])
  {
    hide MaxCount, FirstSeen, Count, Flat, Raised;
    order, merged := order0, merged0;
    var keys, counts := CountKeys(block);
    ghost var flat := Flat(blocks);
    assert flat + keys[..0] == flat;
    FirstSeenMeaning(block);
    forall k | k in keys ensures counts[k] > 0 { Present(block, k); }
    RaisedStart(merged0, counts, keys);
    for i := 0 to |keys|
      invariant order == FirstSeen(flat + keys[..i])
      invariant Raised(merged0, merged, counts, keys[..i])
    {
      var k := keys[i];
      var count := counts[k];
      FirstSeenStep(flat + keys[..i], k);
      assert flat + keys[..i + 1] == (flat + keys[..i]) + [k];
      assert k !in keys[..i];
      RaiseStep(merged0, merged, counts, keys, i);
      RaisedKey(order0, merged0, merged, counts, keys[..i], blocks, k);
      if count > (if k in merged then merged[k] else 0) {
        if k !in merged { order := order + [k]; }
        merged := merged[k := count];
      }
    }
    assert keys[..|keys|] == keys;
    FirstSeenTwice(flat, block);
    FlatConcat(blocks, [block]);
    assert Flat([block]) == block by { OneBlock(block); }
    RaisedAll(order0, merged0, merged, counts, keys, blocks, block);
  }

  function Old(merged: map<Key, nat>, k: Key): nat { if k in merged then merged[k] else 0 }

  /** merged0 raised to the counts of the keys. */
  ghost predicate Raised(merged0: map<Key, nat>, merged: map<Key, nat>, counts: map<Key, nat>, keys: seq<Key>) {
    && (forall k :: k in keys ==> k in counts)
    && (forall k :: k in merged <==> k in merged0 || k in keys)
    && (forall k :: k in merged ==>
          merged[k] == if k in keys && counts[k] > Old(merged0, k) then counts[k] else Old(merged0, k))
  }

  lemma RaisedStart(merged: map<Key, nat>, counts: map<Key, nat>, keys: seq<Key>)
    ensures Raised(merged, merged, counts, keys[..0])
  {
  }

  lemma RaisedKey(order0: seq<Key>, merged0: map<Key, nat>, merged: map<Key, nat>, counts: map<Key, nat>,
                  keys: seq<Key>, blocks: seq<Block>, k: Key)
    requires Merged(order0, merged0, blocks) && Raised(merged0, merged, counts, keys)
    ensures k in merged <==> k in Flat(blocks) + keys
  {
    MaxCountMeaning(blocks, k);
  }

  lemma RaiseStep(merged0: map<Key, nat>, merged: map<Key, nat>, counts: map<Key, nat>, keys: seq<Key>, i: nat)
    requires i < |keys| && Raised(merged0, merged, counts, keys[..i]) && keys[i] in counts && keys[i] !in keys[..i]
    ensures var k := keys[i];
            Raised(merged0, if counts[k] > Old(merged, k) then merged[k := counts[k]] else merged, counts,
                   keys[..i + 1])
            || (counts[k] == 0 && k !in merged)
  {
    assert keys[..i + 1] == keys[..i] + [keys[i]];
  }

  lemma RaisedAll(order0: seq<Key>, merged0: map<Key, nat>, merged: map<Key, nat>, counts: map<Key, nat>,
                  keys: seq<Key>,
                  blocks: seq<Block>, block: Block)
    requires Merged(order0, merged0, blocks) && Raised(merged0, merged, counts, keys)
    requires forall k ::
               && (k in keys <==> k in block) && (k in counts <==> k in block)
               && (k in counts ==> counts[k] == Count(block, k))
    ensures forall k :: if MaxCount(blocks + [block], k) > 0
                        then k in merged && merged[k] == MaxCount(blocks + [block], k) else k !in merged
  {
    hide MaxCount, Count, Flat, FirstSeen;
    forall k
      ensures if MaxCount(blocks + [block], k) > 0
              then k in merged && merged[k] == MaxCount(blocks + [block], k) else k !in merged
    {
      MaxCountStep(blocks, block, k);
      Present(block, k);
      assert Old(merged0, k) == MaxCount(blocks, k);
    }
  }

  lemma Present(block: Block, k: Key)
    ensures k in block <==> Count(block, k) > 0
  {
    assert k in multiset(block) <==> k in block;
  }

  lemma OneBlock(block: Block)
    ensures Flat([block]) == block
  {
    assert [block][..0] == [] && [] + block == block;
  }

  /** load_line_messages. */
  /** x is met before y first is, in the order of the blocks. */
  ghost predicate MetFirst(keys: seq<Key>, x: Key, y: Key) {
    exists p :: 0 <= p < |keys| && keys[p] == x && y !in keys[..p]
  }

  /** Each message is marked as the owner's exactly when its sender is, and the messages come
      in the order in which they are first met. */
  lemma LoadedMeaning(blocks: seq<Block>, declared: string)
    ensures var flat, messages := Flat(blocks), MessagesOf(blocks, declared);
            && (forall m :: m in messages ==>
                  (m.isSelf <==> OwnerIn(flat, declared, m.key.contact, m.key.sender)))
            && forall i, j :: 0 <= i <= j < |messages| ==> MetFirst(flat, messages[i].key, messages[j].key)
  {
    hide MetFirst, OwnerIn;
    var flat, messages := Flat(blocks), MessagesOf(blocks, declared);
    LoadedOrder(flat, FirstSeen(flat), blocks, declared);
    assert messages == Expanded(FirstSeen(flat), blocks, declared);
  }

  lemma {:induction false} FirstSeenOrder(keys: seq<Key>, i: nat, j: nat)
    requires i <= j < |FirstSeen(keys)|
    ensures MetFirst(keys, FirstSeen(keys)[i], FirstSeen(keys)[j])
  {
    var n := |keys| - 1;
    var before, k := keys[..n], keys[n];
    var order := FirstSeen(before);
    if j < |order| {
      FirstSeenOrder(before, i, j);
      var p :| 0 <= p < |before| && before[p] == order[i] && order[j] !in before[..p];
      assert keys[p] == order[i] && keys[..p] == before[..p];
    } else {
      assert FirstSeen(keys)[j] == k && k !in before;
      if i < j {
        FirstSeenMeaning(before);
        assert order[i] in before;
        var p :| 0 <= p < |before| && before[p] == order[i];
        assert keys[p] == order[i] && keys[..p] == before[..p];
      } else {
        assert keys[..n] == before;
      }
    }
  }

  /** Each message is some key's, in the order of the keys. */
  lemma {:induction false} ExpandedFrom(order: seq<Key>, blocks: seq<Block>, declared: string) returns (at: seq<nat>)
    ensures var messages := Expanded(order, blocks, declared);
            && |at| == |messages|
            && (forall i :: 0 <= i < |at| ==>
                  && at[i] < |order|
                  && messages[i] == Message(order[at[i]], IsSelf(blocks, declared, order[at[i]])))
            && forall i, j :: 0 <= i <= j < |at| ==> at[i] <= at[j]
  {
    hide IsSelf, MaxCount;
    at := [];
    if order != [] {
      var n := |order| - 1;
      at := ExpandedFrom(order[..n], blocks, declared);
      var m := Message(order[n], IsSelf(blocks, declared, order[n]));
      CopiesAll(m, MaxCount(blocks, order[n]));
      at := at + seq(MaxCount(blocks, order[n]), _ => n);
    }
  }

  lemma {:induction false} CopiesAll(m: Message, n: nat)
    ensures |Copies(m, n)| == n && forall i :: 0 <= i < n ==> Copies(m, n)[i] == m
  {
    if n > 0 { CopiesAll(m, n - 1); }
  }

  lemma LoadedOrder(flat: seq<Key>, order: seq<Key>, blocks: seq<Block>, declared: string)
    requires flat == Flat(blocks) && order == FirstSeen(flat)
    ensures var messages := Expanded(order, blocks, declared);
            && (forall m :: m in messages ==> (m.isSelf <==> OwnerIn(flat, declared, m.key.contact, m.key.sender)))
            && forall i, j :: 0 <= i <= j < |messages| ==> MetFirst(flat, messages[i].key, messages[j].key)
  {
    hide MetFirst, OwnerIn, FirstSeen, Expanded, Senders, FallbackOf, SelfOf;
    var messages := Expanded(order, blocks, declared);
    var at := ExpandedFrom(order, blocks, declared);
    OwnersResolved(blocks, declared);
    forall i, j | 0 <= i <= j < |messages| ensures MetFirst(flat, messages[i].key, messages[j].key) {
      FirstSeenOrder(flat, at[i], at[j]);
    }
    forall m | m in messages ensures m.isSelf <==> OwnerIn(flat, declared, m.key.contact, m.key.sender) {
      var i :| 0 <= i < |messages| && messages[i] == m;
      assert m.isSelf == IsSelf(blocks, declared, m.key);
    }
  }

  method LoadLineMessages(lines: seq<Line>, declared: string) returns (messages: seq<Message>)
    ensures messages == MessagesOf(BlocksOf(lines), declared)
  {
    hide BlocksOf, FirstSeen, Flat, Senders, MaxCount, Merged, FallbackOf;
    var blocks := ReadBlocks(lines);
    var resolved := ResolveSelfByContact(blocks, declared);
    var order, merged := MergeBlocks(blocks);
    messages := [];
    for i := 0 to |order|
      invariant messages == Expanded(order[..i], blocks, declared)
    {
      var k := order[i];
      assert order[..i + 1][..i] == order[..i];
      MergedAt(order, merged, blocks, k);
      var m := Message(k, k.contact in resolved && k.sender == resolved[k.contact]);
      var n := 0;
      ghost var before := messages;
      while n < merged[k]
        invariant n <= merged[k] && messages == before + Copies(m, n)
      {
        messages := messages + [m];
        n := n + 1;
        assert before + Copies(m, n) == (before + Copies(m, n - 1)) + [m];
      }
    }
    assert order[..|order|] == order;
    MergedOrder(order, merged, blocks);
  }

  method MergeBlocks(blocks: seq<Block>) returns (order: seq<Key>, merged: map<Key, nat>)
    ensures Merged(order, merged, blocks)
  {
    order, merged := [], map[];
    for i := 0 to |blocks|
      invariant Merged(order, merged, blocks[..i])
    {
      hide Merged;
      assert blocks[..i + 1] == blocks[..i] + [blocks[i]];
      order, merged := MergeBlock(order, merged, blocks[i], blocks[..i]);
    }
    assert blocks[..|blocks|] == blocks;
  }

  lemma MergedOrder(order: seq<Key>, merged: map<Key, nat>, blocks: seq<Block>)
    requires Merged(order, merged, blocks)
    ensures order == FirstSeen(Flat(blocks))
  {
  }

  lemma MergedAt(order: seq<Key>, merged: map<Key, nat>, blocks: seq<Block>, k: Key)
    requires Merged(order, merged, blocks) && k in order
    ensures k in merged && merged[k] == MaxCount(blocks, k)
  {
    MaxCountMeaning(blocks, k);
    FirstSeenMeaning(Flat(blocks));
  }
}
