/** UTF-8 (section 3 of RFC 3629): the encoding, that it can be read back, and
    that it keeps the order of code points. */
module Utf8 {

  type Byte = b: int | 0 <= b < 256

  /** A Unicode scalar value: a code point that is not a surrogate. */
  type Scalar = cp: int | 0 <= cp < 0xD800 || 0xE000 <= cp <= 0x10FFFF

  function Tail(x: nat): Byte { 0x80 + x % 64 }

  function Encode(cp: Scalar): seq<Byte> {
    var hi, top, high := cp / 64, cp / 64 / 64, cp / 64 / 64 / 64;
    if cp < 0x80 then [cp]
    else if cp < 0x800 then [0xC0 + hi, Tail(cp)]
    else if cp < 0x10000 then [0xE0 + top, Tail(hi), Tail(cp)]
    else [0xF0 + high, Tail(top), Tail(hi), Tail(cp)]
  }

  /** The four forms: each byte in its range, and the code point from the bits of all of them. */
  lemma EncodedBits(cp: Scalar)
    ensures var b: seq<int> := Encode(cp);
            && (forall i :: 1 <= i < |b| ==> 0x80 <= b[i] < 0xC0)
            && (cp < 0x80 ==> b == [cp])
            && (0x80 <= cp < 0x800 ==> |b| == 2 && 0xC0 <= b[0] < 0xE0 && cp == (b[0] - 0xC0) * 64 + b[1] - 0x80)
            && (0x800 <= cp < 0x10000 ==>
                  |b| == 3 && 0xE0 <= b[0] < 0xF0
                  && cp == (b[0] - 0xE0) * 4096 + (b[1] - 0x80) * 64 + b[2] - 0x80)
            && (0x10000 <= cp ==>
                  |b| == 4 && 0xF0 <= b[0] < 0xF8
                  && cp == (b[0] - 0xF0) * 262144 + (b[1] - 0x80) * 4096 + (b[2] - 0x80) * 64 + b[3] - 0x80)
  {
  }

  function EncodeAll(text: seq<Scalar>): seq<Byte> {
    if text == [] then [] else Encode(text[0]) + EncodeAll(text[1..])
  }

  /** Strict lexicographic order on sequences of numbers. */
  ghost predicate Less(a: seq<int>, b: seq<int>) {
    if b == [] then false
    else if a == [] then true
    else if a[0] != b[0] then a[0] < b[0]
    else Less(a[1..], b[1..])
  }

  /** Less means: a is a proper beginning of b, or smaller where they first differ. */
  lemma {:induction false} LessMeaning(a: seq<int>, b: seq<int>)
    ensures Less(a, b) <==>
            (|a| < |b| && b[..|a|] == a) || exists k :: 0 <= k < |a| && k < |b| && a[..k] == b[..k] && a[k] < b[k]
  {
    if a != [] && b != [] {
      if a[0] == b[0] {
        LessMeaning(a[1..], b[1..]);
        LessTail(a, b);
      } else {
        assert a[..0] == b[..0];
        forall k | 0 < k <= |a| && k <= |b| ensures a[..k] != b[..k] {
          assert a[..k][0] != b[..k][0];
        }
        assert |a| < |b| ==> b[..|a|][0] != a[0];
      }
    }
  }

  lemma LessTail(a: seq<int>, b: seq<int>)
    requires a != [] && b != [] && a[0] == b[0]
    ensures |a| < |b| && b[..|a|] == a <==> |a[1..]| < |b[1..]| && b[1..][..|a| - 1] == a[1..]
    ensures (exists k :: 0 <= k < |a| && k < |b| && a[..k] == b[..k] && a[k] < b[k]) <==>
            exists k :: 0 <= k < |a[1..]| && k < |b[1..]| && a[1..][..k] == b[1..][..k] && a[1..][k] < b[1..][k]
  {
    var p, q := a[1..], b[1..];
    assert a == [a[0]] + p && b == [b[0]] + q;
    if |a| <= |b| { assert b[..|a|] == [b[0]] + q[..|p|]; }
    forall k | 0 <= k < |p| && k < |q| ensures a[..k + 1] == [a[0]] + p[..k] && b[..k + 1] == [b[0]] + q[..k] { }
    if k :| 0 <= k < |a| && k < |b| && a[..k] == b[..k] && a[k] < b[k] {
      assert k > 0;
      var j := k - 1;
      assert a[..j + 1] == b[..j + 1] && p[..j] == a[..j + 1][1..] && q[..j] == b[..j + 1][1..];
      assert p[j] < q[j];
    }
    if k :| 0 <= k < |p| && k < |q| && p[..k] == q[..k] && p[k] < q[k] {
      assert a[..k + 1] == b[..k + 1] && a[k + 1] < b[k + 1];
    }
  }

  lemma TailOrder(x: nat, y: nat)
    requires x < y && x / 64 == y / 64
    ensures Tail(x) < Tail(y)
  {
  }

  lemma QuotientOrder(x: nat, y: nat)
    requires x < y
    ensures x / 64 <= y / 64
  {
  }

  /** The first differing place of two encodings orders them as their code points. */
  lemma EncodeOrder(a: Scalar, b: Scalar) returns (k: nat)
    requires a < b
    ensures k < |Encode(a)| && k < |Encode(b)| && Encode(a)[..k] == Encode(b)[..k] && Encode(a)[k] < Encode(b)[k]
  {
    if b < 0x800 {
      k := ShortOrder(a, b);
    } else if b < 0x10000 {
      k := MiddleOrder(a, b);
    } else {
      k := LongOrder(a, b);
    }
  }

  lemma ShortOrder(a: Scalar, b: Scalar) returns (k: nat)
    requires a < b < 0x800
    ensures k < |Encode(a)| && k < |Encode(b)| && Encode(a)[..k] == Encode(b)[..k] && Encode(a)[k] < Encode(b)[k]
  {
    QuotientOrder(a, b);
    k := 0;
    if 0x80 <= a && a / 64 == b / 64 { TailOrder(a, b); k := 1; }
  }

  lemma MiddleOrder(a: Scalar, b: Scalar) returns (k: nat)
    requires a < b && 0x800 <= b < 0x10000
    ensures k < |Encode(a)| && k < |Encode(b)| && Encode(a)[..k] == Encode(b)[..k] && Encode(a)[k] < Encode(b)[k]
  {
    var a1, b1 := a / 64, b / 64;
    QuotientOrder(a, b);
    if a1 < b1 { QuotientOrder(a1, b1); }
    k := 0;
    if 0x800 <= a && a1 / 64 == b1 / 64 {
      if a1 == b1 { TailOrder(a, b); k := 2; } else { TailOrder(a1, b1); k := 1; }
    }
  }

  lemma LongOrder(a: Scalar, b: Scalar) returns (k: nat)
    requires a < b && 0x10000 <= b
    ensures k < |Encode(a)| && k < |Encode(b)| && Encode(a)[..k] == Encode(b)[..k] && Encode(a)[k] < Encode(b)[k]
  {
    var a1, b1 := a / 64, b / 64;
    var a2, b2 := a1 / 64, b1 / 64;
    QuotientOrder(a, b);
    if a1 < b1 { QuotientOrder(a1, b1); }
    if a2 < b2 { QuotientOrder(a2, b2); }
    k := 0;
    if 0x10000 <= a && a2 / 64 == b2 / 64 {
      if a2 != b2 { TailOrder(a2, b2); k := 1; }
      else if a1 != b1 { TailOrder(a1, b1); k := 2; }
      else { TailOrder(a, b); k := 3; }
    }
  }

  lemma {:induction false} LessAfterPrefix(p: seq<int>, a: seq<int>, b: seq<int>)
    ensures Less(p + a, p + b) <==> Less(a, b)
  {
    if p == [] {
      assert p + a == a && p + b == b;
    } else {
      assert (p + a)[1..] == p[1..] + a && (p + b)[1..] == p[1..] + b;
      LessAfterPrefix(p[1..], a, b);
    }
  }

  lemma {:induction false} LessAtDifference(a: seq<int>, b: seq<int>, k: nat)
    requires k < |a| && k < |b| && a[..k] == b[..k] && a[k] != b[k]
    ensures Less(a, b) <==> a[k] < b[k]
  {
    if k > 0 {
      assert a[..k][0] == a[0] && b[..k][0] == b[0];
      assert a[1..][..k - 1] == a[..k][1..] && b[1..][..k - 1] == b[..k][1..];
      LessAtDifference(a[1..], b[1..], k - 1);
    }
  }

  /** Sorting by code point is sorting by UTF-8 bytes. */
  lemma {:induction false} OrderKept(a: seq<Scalar>, b: seq<Scalar>)
    ensures Less(EncodeAll(a), EncodeAll(b)) <==> Less(a, b)
    decreases |a| + |b|
  {
    if a == [] || b == [] {
      if b != [] {
        assert EncodeAll(b)[0] == Encode(b[0])[0];
      }
      if a != [] {
        assert EncodeAll(a)[0] == Encode(a[0])[0];
      }
    } else if a[0] == b[0] {
      OrderKept(a[1..], b[1..]);
      LessAfterPrefix(Encode(a[0]), EncodeAll(a[1..]), EncodeAll(b[1..]));
    } else {
      var x, y := Encode(a[0]) + EncodeAll(a[1..]), Encode(b[0]) + EncodeAll(b[1..]);
      if a[0] < b[0] {
        var k := EncodeOrder(a[0], b[0]);
        assert x[..k] == Encode(a[0])[..k] && y[..k] == Encode(b[0])[..k];
        LessAtDifference(x, y, k);
      } else {
        var k := EncodeOrder(b[0], a[0]);
        assert x[..k] == Encode(a[0])[..k] && y[..k] == Encode(b[0])[..k];
        LessAtDifference(x, y, k);
      }
    }
  }

  lemma {:induction false} LessIrreflexive(a: seq<int>)
    ensures !Less(a, a)
  {
    if a != [] { LessIrreflexive(a[1..]); }
  }

  lemma {:induction false} LessTotal(a: seq<int>, b: seq<int>)
    ensures a == b || Less(a, b) || Less(b, a)
  {
    if a != [] && b != [] && a[0] == b[0] {
      LessTotal(a[1..], b[1..]);
      assert a == [a[0]] + a[1..] && b == [b[0]] + b[1..];
    }
  }

  /** Different texts have different bytes. */
  lemma EncodeAllInjective(a: seq<Scalar>, b: seq<Scalar>)
    requires EncodeAll(a) == EncodeAll(b)
    ensures a == b
  {
    LessTotal(a, b);
    OrderKept(a, b);
    OrderKept(b, a);
    LessIrreflexive(EncodeAll(a));
  }
}
