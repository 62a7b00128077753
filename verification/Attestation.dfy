/** The length-prefixed encodings of e0b_attestation.py and e0b_intent.py, and
    the dictionary snapshot that is hashed through them. */
module Attestation {
  import opened Utf8

  type Term = seq<Scalar>

  const U64_MAX := 0x1_0000_0000_0000_0000
  const MAX_PII_TERM_BYTES := 4096
  const MAX_PII_TERMS := 100000

  const DOMAIN_NAME := "PKB-PII-DICT-V1"

  /** DOMAIN_NAME in ASCII. */
  const DOMAIN_SEP: seq<Byte> :=
    [0x50, 0x4B, 0x42, 0x2D, 0x50, 0x49, 0x49, 0x2D, 0x44, 0x49, 0x43, 0x54, 0x2D, 0x56, 0x31]

  // ------------------------------------------------------------ numbers and lists

  /** int.to_bytes(width, "big"). */
  function BigEndian(n: nat, width: nat): (r: seq<Byte>)
    ensures |r| == width
  {
    if width == 0 then [] else BigEndian(n / 256, width - 1) + [n % 256]
  }

  function Power256(width: nat): nat {
    if width == 0 then 1 else 256 * Power256(width - 1)
  }

  /** The value of the eight bytes, the most significant one first. */
  lemma U64Value(n: nat)
    requires n < U64_MAX
    ensures var b := BigEndian(n, 8);
            n == (b[0] as int) * 0x100_0000_0000_0000 + (b[1] as int) * 0x1_0000_0000_0000
                 + (b[2] as int) * 0x100_0000_0000 + (b[3] as int) * 0x1_0000_0000 + (b[4] as int) * 0x100_0000
                 + (b[5] as int) * 0x1_0000 + (b[6] as int) * 0x100 + b[7] as int
  {
    var n1 := n / 256;
    var n2 := n1 / 256;
    var n3 := n2 / 256;
    var n4 := n3 / 256;
    var n5 := n4 / 256;
    var n6 := n5 / 256;
    var n7 := n6 / 256;
    assert n7 < 256 && n7 / 256 == 0;
    var b := BigEndian(n, 8);
    assert b == BigEndian(n1, 7) + [n % 256];
    assert b == BigEndian(n2, 6) + [n1 % 256, n % 256];
    assert b == BigEndian(n3, 5) + [n2 % 256, n1 % 256, n % 256];
    assert b == BigEndian(n4, 4) + [n3 % 256, n2 % 256, n1 % 256, n % 256];
    assert b == BigEndian(n5, 3) + [n4 % 256, n3 % 256, n2 % 256, n1 % 256, n % 256];
    assert b == BigEndian(n6, 2) + [n5 % 256, n4 % 256, n3 % 256, n2 % 256, n1 % 256, n % 256];
    assert b == [n7 % 256, n6 % 256, n5 % 256, n4 % 256, n3 % 256, n2 % 256, n1 % 256, n % 256];
  }

  lemma {:induction false} BigEndianInjective(a: nat, b: nat, width: nat)
    requires a < Power256(width) && b < Power256(width) && BigEndian(a, width) == BigEndian(b, width)
    ensures a == b
  {
    if width > 0 {
      var x, y := BigEndian(a / 256, width - 1), BigEndian(b / 256, width - 1);
      assert BigEndian(a, width)[width - 1] == a % 256 && BigEndian(b, width)[width - 1] == b % 256;
      assert BigEndian(a, width)[..width - 1] == x && BigEndian(b, width)[..width - 1] == y;
      BigEndianInjective(a / 256, b / 256, width - 1);
    }
  }

  lemma U64Injective(a: nat, b: nat)
    requires a < U64_MAX && b < U64_MAX && BigEndian(a, 8) == BigEndian(b, 8)
    ensures a == b
  {
    assert Power256(8) == U64_MAX by {
      assert Power256(2) == 65536;
      assert Power256(4) == 4294967296;
      assert Power256(6) == 281474976710656;
    }
    BigEndianInjective(a, b, 8);
  }

  function Prefixed(raw: seq<Byte>): seq<Byte> {
    BigEndian(|raw|, 8) + raw
  }

  function Framed(items: seq<seq<Byte>>): seq<Byte> {
    if items == [] then [] else Framed(items[..|items| - 1]) + Prefixed(items[|items| - 1])
  }

  lemma {:induction false} FramedCons(items: seq<seq<Byte>>)
    requires items != []
    ensures Framed(items) == Prefixed(items[0]) + Framed(items[1..])
  {
    hide Prefixed;
    var n := |items| - 1;
    if n == 0 {
      assert items[..0] == [] == items[1..];
    } else {
      var head, mid, last := Prefixed(items[0]), Framed(items[1..][..n - 1]), Prefixed(items[n]);
      FramedCons(items[..n]);
      assert items[..n][1..] == items[1..][..n - 1];
      assert (head + mid) + last == head + (mid + last);
    }
  }

  ghost predicate Encodable(items: seq<seq<Byte>>) {
    forall i :: 0 <= i < |items| ==> |items[i]| < U64_MAX
  }

  /** Without any item count, the framed bytes determine the items. */
  lemma {:induction false} FramedInjective(a: seq<seq<Byte>>, b: seq<seq<Byte>>)
    requires Encodable(a) && Encodable(b) && Framed(a) == Framed(b)
    ensures a == b
    decreases |a|
  {
    if a == [] {
      if b != [] { FramedCons(b); }
    } else {
      FramedCons(a);
      if b != [] {
        FramedCons(b);
        assert Framed(a)[..8] == BigEndian(|a[0]|, 8) && Framed(b)[..8] == BigEndian(|b[0]|, 8);
        U64Injective(|a[0]|, |b[0]|);
        var n := 8 + |a[0]|;
        assert Framed(a)[8..n] == a[0] && Framed(b)[8..n] == b[0];
        assert Framed(a)[n..] == Framed(a[1..]) && Framed(b)[n..] == Framed(b[1..]);
        FramedInjective(a[1..], b[1..]);
        assert a == [a[0]] + a[1..] && b == [b[0]] + b[1..];
      }
    }
  }

  /** From its cut to the next one: eight bytes of the item's length, then the item. */
  ghost predicate ItemAt(out: seq<Byte>, item: seq<Byte>, from: nat, to: nat) {
    to == from + 8 + |item| <= |out| && out[from..from + 8] == BigEndian(|item|, 8) && out[from + 8..to] == item
  }

  /** The items lie one after the other, in order and with nothing between. */
  ghost predicate FramedAt(out: seq<Byte>, items: seq<seq<Byte>>, cuts: seq<nat>) {
    && |cuts| == |items| + 1 && cuts[0] == 0 && cuts[|items|] == |out|
    && forall i :: 0 <= i < |items| ==> ItemAt(out, items[i], cuts[i], cuts[i + 1])
  }

  lemma ItemStays(init: seq<Byte>, more: seq<Byte>, item: seq<Byte>, from: nat, to: nat)
    requires ItemAt(init, item, from, to)
    ensures ItemAt(init + more, item, from, to)
  {
    hide BigEndian;
    assert (init + more)[from..from + 8] == init[from..from + 8];
    assert (init + more)[from + 8..to] == init[from + 8..to];
  }

  lemma PrefixedLength(item: seq<Byte>)
    ensures |Prefixed(item)| == 8 + |item|
  {
  }

  lemma LastItem(init: seq<Byte>, item: seq<Byte>)
    ensures ItemAt(init + Prefixed(item), item, |init|, |init| + 8 + |item|)
  {
    hide BigEndian;
    assert init + Prefixed(item) == init + BigEndian(|item|, 8) + item;
  }

  lemma {:induction false} FramedInOrder(items: seq<seq<Byte>>) returns (cuts: seq<nat>)
    ensures FramedAt(Framed(items), items, cuts)
  {
    hide BigEndian, ItemAt, Prefixed;
    if items == [] {
      cuts := [0];
    } else {
      var n := |items| - 1;
      var head := FramedInOrder(items[..n]);
      var init := Framed(items[..n]);
      LastItem(init, items[n]);
      PrefixedLength(items[n]);
      cuts := head + [|init| + 8 + |items[n]|];
      forall i | 0 <= i < |items| ensures ItemAt(Framed(items), items[i], cuts[i], cuts[i + 1]) {
        if i < n {
          assert items[..n][i] == items[i];
          ItemStays(init, Prefixed(items[n]), items[i], head[i], head[i + 1]);
        }
      }
    }
  }

  // ------------------------------------------------------------ preimage

  function Raw(terms: seq<Term>): seq<seq<Byte>> {
    seq(|terms|, i requires 0 <= i < |terms| => EncodeAll(terms[i]))
  }

  function PreimageOf(terms: seq<Term>, revision: nat): seq<Byte> {
    DOMAIN_SEP + BigEndian(revision, 8) + Framed(Raw(terms))
  }

  /** The digested bytes, field by field: the name of the format, the revision, the terms. */
  lemma PreimageLayout(terms: seq<Term>, revision: nat) returns (cuts: seq<nat>)
    ensures var p := PreimageOf(terms, revision);
            && |p| >= 23 && |DOMAIN_NAME| == 15 && (forall i :: 0 <= i < 15 ==> p[i] == DOMAIN_NAME[i] as int)
            && p[15..23] == BigEndian(revision, 8) && FramedAt(p[23..], Raw(terms), cuts)
  {
    hide BigEndian, FramedAt;
    var p := PreimageOf(terms, revision);
    assert |DOMAIN_SEP| == 15;
    assert p == DOMAIN_SEP + (BigEndian(revision, 8) + Framed(Raw(terms)));
    assert p[..15] == DOMAIN_SEP;
    forall i | 0 <= i < 15 ensures p[i] == DOMAIN_NAME[i] as int {
      assert p[i] == DOMAIN_SEP[i];
    }
    assert p[23..] == Framed(Raw(terms));
    cuts := FramedInOrder(Raw(terms));
  }

  lemma RawSnoc(terms: seq<Term>, i: nat)
    requires i < |terms|
    ensures Framed(Raw(terms[..i + 1])) == Framed(Raw(terms[..i])) + Prefixed(EncodeAll(terms[i]))
    ensures Raw(terms)[i] == EncodeAll(terms[i])
  {
    assert Raw(terms[..i + 1])[..i] == Raw(terms[..i]);
  }

  /** The item loop of both encoders: length, then bytes. */
  method AppendFramed(head: seq<Byte>, terms: seq<Term>) returns (ok: bool, out: seq<Byte>)
    ensures ok <==> Encodable(Raw(terms))
    ensures ok ==> out == head + Framed(Raw(terms))
  {
    hide Framed, EncodeAll, BigEndian;
    out := head;
    assert Framed(Raw(terms[..0])) == [] by { FramedNothing(terms); }
    var i := 0;
    while i < |terms|
      invariant 0 <= i <= |terms| && out == head + Framed(Raw(terms[..i]))
      invariant forall j :: 0 <= j < i ==> |Raw(terms)[j]| < U64_MAX
    {
      var raw := EncodeAll(terms[i]);
      RawSnoc(terms, i);
      if |raw| >= U64_MAX { return false, out; }
      out := out + BigEndian(|raw|, 8);
      out := out + raw;
      i := i + 1;
    }
    assert terms[..i] == terms;
    ok := true;
  }

  lemma FramedNothing(terms: seq<Term>)
    ensures Framed(Raw(terms[..0])) == []
  {
  }

  /** preimage: extend a byte array field by field. to_bytes raises on a number
      of 2^64 or more, which is the only failure. */
  method Preimage(terms: seq<Term>, revision: nat) returns (ok: bool, out: seq<Byte>)
    ensures ok <==> revision < U64_MAX && Encodable(Raw(terms))
    ensures ok ==> out == PreimageOf(terms, revision)
  {
    out := DOMAIN_SEP;
    if revision >= U64_MAX { return false, out; }
    out := out + BigEndian(revision, 8);
    ok, out := AppendFramed(out, terms);
  }

  /** Different dictionaries or revisions have different preimages. */
  lemma PreimageInjective(s: seq<Term>, m: nat, t: seq<Term>, n: nat)
    requires m < U64_MAX && n < U64_MAX && Encodable(Raw(s)) && Encodable(Raw(t))
    requires PreimageOf(s, m) == PreimageOf(t, n)
    ensures s == t && m == n
  {
    var d := |DOMAIN_SEP|;
    assert PreimageOf(s, m)[d..d + 8] == BigEndian(m, 8) && PreimageOf(t, n)[d..d + 8] == BigEndian(n, 8);
    U64Injective(m, n);
    assert PreimageOf(s, m)[d + 8..] == Framed(Raw(s)) && PreimageOf(t, n)[d + 8..] == Framed(Raw(t));
    FramedInjective(Raw(s), Raw(t));
    assert |Raw(s)| == |s| && |Raw(t)| == |t|;
    forall i | 0 <= i < |s| ensures s[i] == t[i] {
      assert Raw(s)[i] == Raw(t)[i];
      EncodeAllInjective(s[i], t[i]);
    }
  }

  // ------------------------------------------------------------ attestation framing

  datatype Intent = Intent(sessionId: seq<Byte>, nonce: seq<Byte>, generation: nat, epoch: nat,
                           dictHash: seq<Byte>, queries: seq<Term>)

  predicate IsLowerHex(text: seq<Byte>, length: nat) {
    |text| == length && forall i :: 0 <= i < length ==> 0x30 <= text[i] <= 0x39 || 0x61 <= text[i] <= 0x66
  }

  lemma LowerHexMeaning(text: seq<Byte>, length: nat)
    ensures IsLowerHex(text, length) <==>
            |text| == length && forall i :: 0 <= i < |text| ==> text[i] as char in "0123456789abcdef"
  {
    if |text| == length {
      forall i | 0 <= i < |text|
        ensures text[i] as char in "0123456789abcdef" <==> 0x30 <= text[i] <= 0x39 || 0x61 <= text[i] <= 0x66
      {
        HexByte(text[i]);
      }
    }
  }

  lemma HexByte(b: Byte)
    ensures b as char in "0123456789abcdef" <==> 0x30 <= b <= 0x39 || 0x61 <= b <= 0x66
  {
  }

  /** What the field validators demand. */
  predicate FieldsOk(x: Intent) {
    && IsLowerHex(x.sessionId, 32) && IsLowerHex(x.nonce, 64) && IsLowerHex(x.dictHash, 64)
    && x.generation < U64_MAX && x.epoch < U64_MAX
  }

  function FramingOf(x: Intent): seq<Byte> {
    x.sessionId + x.nonce + BigEndian(x.generation, 8) + BigEndian(x.epoch, 8) + x.dictHash + Framed(Raw(x.queries))
  }

  /** The framed bytes, field by field, each at its own place. */
  lemma FramingLayout(x: Intent) returns (cuts: seq<nat>)
    requires FieldsOk(x)
    ensures var f := FramingOf(x);
            && |f| >= 176 && f[..32] == x.sessionId && f[32..96] == x.nonce
            && f[96..104] == BigEndian(x.generation, 8) && f[104..112] == BigEndian(x.epoch, 8)
            && f[112..176] == x.dictHash && FramedAt(f[176..], Raw(x.queries), cuts)
  {
    hide BigEndian, FramedAt;
    assert FramingOf(x)[176..] == Framed(Raw(x.queries));
    cuts := FramedInOrder(Raw(x.queries));
  }

  /** attestation_framing. */
  method AttestationFraming(x: Intent) returns (ok: bool, out: seq<Byte>)
    ensures ok <==> FieldsOk(x) && Encodable(Raw(x.queries))
    ensures ok ==> out == FramingOf(x)
  {
    out := [];
    if !FieldsOk(x) { return false, out; }
    out := out + x.sessionId;
    out := out + x.nonce;
    out := out + BigEndian(x.generation, 8);
    out := out + BigEndian(x.epoch, 8);
    out := out + x.dictHash;
    ok, out := AppendFramed(out, x.queries);
  }

  /** An attestation tag covers every field: equal framings mean equal intents. */
  lemma FramingInjective(x: Intent, y: Intent)
    requires FieldsOk(x) && FieldsOk(y) && Encodable(Raw(x.queries)) && Encodable(Raw(y.queries))
    requires FramingOf(x) == FramingOf(y)
    ensures x == y
  {
    var f, g := FramingOf(x), FramingOf(y);
    assert f[..32] == x.sessionId && g[..32] == y.sessionId;
    assert f[32..96] == x.nonce && g[32..96] == y.nonce;
    assert f[96..104] == BigEndian(x.generation, 8) && g[96..104] == BigEndian(y.generation, 8);
    assert f[104..112] == BigEndian(x.epoch, 8) && g[104..112] == BigEndian(y.epoch, 8);
    assert f[112..176] == x.dictHash && g[112..176] == y.dictHash;
    assert f[176..] == Framed(Raw(x.queries)) && g[176..] == Framed(Raw(y.queries));
    U64Injective(x.generation, y.generation);
    U64Injective(x.epoch, y.epoch);
    FramedInjective(Raw(x.queries), Raw(y.queries));
    assert |Raw(x.queries)| == |x.queries| && |Raw(y.queries)| == |y.queries|;
    forall i | 0 <= i < |x.queries| ensures x.queries[i] == y.queries[i] {
      assert Raw(x.queries)[i] == Raw(y.queries)[i];
      EncodeAllInjective(x.queries[i], y.queries[i]);
    }
  }

  // ------------------------------------------------------------ the snapshot

  /** The list is the set, strictly increasing by code point. */
  ghost predicate IsSortedSet(list: seq<Term>, of: set<Term>) {
    && (forall i, j :: 0 <= i < j < |list| ==> Less(list[i], list[j]))
    && (forall t :: t in list <==> t in of)
  }

  lemma {:induction false} LessTransitive(a: seq<int>, b: seq<int>, c: seq<int>)
    requires Less(a, b) && Less(b, c)
    ensures Less(a, c)
  {
    if a != [] && a[0] == b[0] && b[0] == c[0] {
      LessTransitive(a[1..], b[1..], c[1..]);
    }
  }

  lemma LessAsymmetric(a: seq<int>, b: seq<int>)
    requires Less(a, b)
    ensures !Less(b, a)
  {
    if Less(b, a) {
      LessTransitive(a, b, a);
      LessIrreflexive(a);
    }
  }

  lemma ListsNothing(list: seq<Term>, of: set<Term>)
    requires IsSortedSet(list, of)
    ensures of == {} ==> list == []
  {
    assert list == [] || list[0] in list;
  }

  /** There is only one sorted list of a set. */
  lemma {:induction false} SortedSetUnique(a: seq<Term>, b: seq<Term>, of: set<Term>)
    requires IsSortedSet(a, of) && IsSortedSet(b, of)
    ensures a == b
    decreases |a|
  {
    if a == [] {
      assert of == {};
      ListsNothing(b, of);
    } else {
      assert a[0] in a;
      var j :| 0 <= j < |b| && b[j] == a[0];
      assert b[0] in b;
      var i :| 0 <= i < |a| && a[i] == b[0];
      LessIrreflexive(a[0]);
      if i > 0 && j > 0 {
        LessAsymmetric(a[0], a[i]);
        assert false;
      }
      assert a[0] == b[0];
      TailOf(a, of);
      TailOf(b, of);
      SortedSetUnique(a[1..], b[1..], of - {a[0]});
      assert a == [a[0]] + a[1..] && b == [b[0]] + b[1..];
    }
  }

  lemma TailOf(a: seq<Term>, of: set<Term>)
    requires IsSortedSet(a, of) && a != []
    ensures IsSortedSet(a[1..], of - {a[0]})
  {
    LessIrreflexive(a[0]);
    assert forall t :: t in a <==> t == a[0] || t in a[1..];
    assert forall i :: 1 <= i < |a| ==> Less(a[0], a[i]);
  }

  datatype Snapshot = Snapshot(revision: nat, terms: seq<Term>, digested: seq<Byte>)

  ghost function CanonicalSet(canonicalize: Term -> Term, raw: seq<Term>): set<Term> {
    set t | t in raw :: canonicalize(t)
  }

  ghost predicate RawTermsOk(canonicalize: Term -> Term, raw: seq<Term>) {
    forall t :: t in raw ==> canonicalize(t) != [] && |EncodeAll(canonicalize(t))| <= 4096
  }

  /** sorted(): insertion before the first term that is not smaller. */
  method InsertSorted(list: seq<Term>, t: Term, ghost of: set<Term>) returns (longer: seq<Term>)
    requires IsSortedSet(list, of) && t !in of
    ensures IsSortedSet(longer, of + {t})
  {
    var p := 0;
    while p < |list| && LessThan(list[p], t)
      invariant 0 <= p <= |list| && forall i :: 0 <= i < p ==> Less(list[i], t)
    {
      p := p + 1;
    }
    longer := list[..p] + [t] + list[p..];
    forall i | p <= i < |list| ensures Less(t, list[i]) {
      assert list[i] in list && list[p] in list;
      LessTotal(t, list[p]);
      if p < i { LessTransitive(t, list[p], list[i]); }
    }
    assert list == list[..p] + list[p..];
    InsertKeepsSorted(list, t, p);
  }

  lemma InsertKeepsSorted(list: seq<Term>, t: Term, p: nat)
    requires forall i, j :: 0 <= i < j < |list| ==> Less(list[i], list[j])
    requires p <= |list| && forall i :: 0 <= i < p ==> Less(list[i], t)
    requires forall i :: p <= i < |list| ==> Less(t, list[i])
    ensures var longer := list[..p] + [t] + list[p..];
            forall i, j :: 0 <= i < j < |longer| ==> Less(longer[i], longer[j])
  {
  }

  predicate LessThan(a: Term, b: Term)
    ensures LessThan(a, b) <==> Less(a, b)
  {
    if b == [] then false
    else if a == [] then true
    else if a[0] != b[0] then a[0] < b[0]
    else LessThan(a[1..], b[1..])
  }

  /** PIISnapshot.build, with the hash replaced by the bytes it digests. */
  method Build(canonicalize: Term -> Term, raw: seq<Term>, revision: nat, previous: nat, hasPrevious: bool)
    returns (ok: bool, s: Snapshot)
    ensures ok <==> && (hasPrevious ==> revision > previous) && RawTermsOk(canonicalize, raw)
                    && |CanonicalSet(canonicalize, raw)| <= 100000 && revision < 0x1_0000_0000_0000_0000
    ensures ok ==> s.revision == revision && IsSortedSet(s.terms, CanonicalSet(canonicalize, raw))
    ensures ok ==> s.digested == PreimageOf(s.terms, revision)
  {
    s := Snapshot(revision, [], []);
    if hasPrevious && revision <= previous { return false, s; }
    var seen: set<Term>, sorted: seq<Term> := {}, [];
    var i := 0;
    while i < |raw|
      invariant 0 <= i <= |raw| && seen == CanonicalSet(canonicalize, raw[..i])
      invariant IsSortedSet(sorted, seen) && RawTermsOk(canonicalize, raw[..i])
    {
      assert raw[..i + 1] == raw[..i] + [raw[i]];
      var term := canonicalize(raw[i]);
      if term == [] || |EncodeAll(term)| > MAX_PII_TERM_BYTES {
        assert raw[i] in raw;
        return false, s;
      }
      assert CanonicalSet(canonicalize, raw[..i + 1]) == seen + {term};
      if term !in seen {
        sorted := InsertSorted(sorted, term, seen);
        seen := seen + {term};
      }
      i := i + 1;
    }
    assert raw[..i] == raw;
    if |seen| > MAX_PII_TERMS { return false, s; }
    var fits, digested := Preimage(sorted, revision);
    forall j | 0 <= j < |sorted| ensures |Raw(sorted)[j]| < U64_MAX {
      assert sorted[j] in sorted;
    }
    s := Snapshot(revision, sorted, digested);
    ok := fits;
  }

  /** The snapshot depends only on the set of canonical terms and the revision,
      and lists the terms in the order of their UTF-8 bytes. */
  lemma SnapshotDeterminedBySet(canonicalize: Term -> Term, raw1: seq<Term>, raw2: seq<Term>, s1: Snapshot,
                                s2: Snapshot)
    requires CanonicalSet(canonicalize, raw1) == CanonicalSet(canonicalize, raw2) && s1.revision == s2.revision
    requires IsSortedSet(s1.terms, CanonicalSet(canonicalize, raw1)) && s1.digested == PreimageOf(s1.terms, s1.revision)
    requires IsSortedSet(s2.terms, CanonicalSet(canonicalize, raw2)) && s2.digested == PreimageOf(s2.terms, s2.revision)
    ensures s1 == s2
    ensures forall i, j :: 0 <= i < j < |s1.terms| ==> Less(EncodeAll(s1.terms[i]), EncodeAll(s1.terms[j]))
  {
    SortedSetUnique(s1.terms, s2.terms, CanonicalSet(canonicalize, raw1));
    forall i, j | 0 <= i < j < |s1.terms| ensures Less(EncodeAll(s1.terms[i]), EncodeAll(s1.terms[j])) {
      OrderKept(s1.terms[i], s1.terms[j]);
    }
  }

  /** Conversely, equal digested bytes mean the same set and revision. */
  lemma SnapshotSeparatesSets(s1: Snapshot, of1: set<Term>, s2: Snapshot, of2: set<Term>)
    requires IsSortedSet(s1.terms, of1) && IsSortedSet(s2.terms, of2)
    requires s1.revision < U64_MAX && s2.revision < U64_MAX && Encodable(Raw(s1.terms)) && Encodable(Raw(s2.terms))
    requires s1.digested == PreimageOf(s1.terms, s1.revision) && s2.digested == PreimageOf(s2.terms, s2.revision)
    requires s1.digested == s2.digested
    ensures of1 == of2 && s1.revision == s2.revision
  {
    PreimageInjective(s1.terms, s1.revision, s2.terms, s2.revision);
  }
}
