/** What several modules need: an optional value, sizes of sets, substrings, decimal digits. */
module Common {

  datatype Maybe<T> = Nothing | Just(value: T)

  lemma SubsetSize<T>(a: set<T>, b: set<T>)
    requires a <= b
    ensures |a| <= |b|
  {
    assert b == a + (b - a);
  }

  lemma {:induction false} DistinctSize<T>(s: seq<T>)
    requires forall i, j :: 0 <= i < j < |s| ==> s[i] != s[j]
    ensures |set x | x in s| == |s|
  {
    if s != [] {
      var n := |s| - 1;
      DistinctSize(s[..n]);
      assert (set x | x in s) == (set x | x in s[..n]) + {s[n]};
    }
  }

  ghost function Below(n: nat): (all: set<nat>)
    ensures forall i: nat :: i in all <==> i < n
    ensures |all| == n
  {
    if n == 0 then {} else Below(n - 1) + {n - 1}
  }

  lemma SmallerSet<T>(b: set<T>, a: set<T>)
    requires b < a
    ensures |b| < |a|
  {
    assert a == b + (a - b);
    var x :| x in a - b;
    assert |a| == |b| + |a - b|;
  }

  /** p is a contiguous part of text. */
  predicate OccursIn(p: string, text: string) {
    exists a, b :: 0 <= a <= b <= |text| && text[a..b] == p
  }

  /** A number in decimal digits. */
  function Decimal(n: nat): string {
    if n < 10 then [('0' as int + n) as char] else Decimal(n / 10) + [('0' as int + n % 10) as char]
  }

  lemma DecimalSamples()
    ensures Decimal(0) == "0" && Decimal(9) == "9" && Decimal(10) == "10" && Decimal(1234) == "1234"
  {
    assert Decimal(12) == "12";
    assert Decimal(123) == "123";
  }
}
