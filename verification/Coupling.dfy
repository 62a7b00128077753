/** The rank correlation arithmetic of coupling.py, over exact reals: padded circular
    sums, the masked moments and the correlation at one lag. */
module Coupling {
  import opened Common

  const N_MIN := 100
  const EPSILON: real := 0.000000001

  // ------------------------------------------------------------ circular and linear sums

  function Padded(a: seq<real>, t: nat): real { if t < |a| then a[t] else 0.0 }

  /** The circular cross-correlation at tau of two series padded to m, as its sum. */
  function CircularTo(a: seq<real>, b: seq<real>, m: nat, tau: int, n: nat): real
    requires m > 0
  {
    if n == 0 then 0.0 else CircularTo(a, b, m, tau, n - 1) + Padded(a, n - 1) * Padded(b, (n - 1 + tau) % m)
  }

  function CircularXcorr(a: seq<real>, b: seq<real>, m: nat, tau: int): real
    requires m > 0
  {
    CircularTo(a, b, m, tau, m)
  }

  /** The linear sum over the indices below n that stay in range. */
  function LinearTo(a: seq<real>, b: seq<real>, tau: int, n: nat): real {
    if n == 0 then 0.0
    else LinearTo(a, b, tau, n - 1) + if 0 <= n - 1 + tau then Padded(a, n - 1) * Padded(b, n - 1 + tau) else 0.0
  }

  function LinearXcorr(a: seq<real>, b: seq<real>, tau: int): real { LinearTo(a, b, tau, |a|) }

  /** Inside the padding an index either stays or meets a zero. */
  lemma PaddedIndex(b: seq<real>, m: nat, i: int)
    requires m > 0 && |b| - m <= i < m
    ensures Padded(b, i % m) == if 0 <= i then Padded(b, i) else 0.0
  {
    if i < 0 {
      Modulo(i + m, m, -1);
    } else {
      Modulo(i, m, 0);
    }
  }

  lemma {:induction false} CircularIsLinear(a: seq<real>, b: seq<real>, m: nat, tau: int, n: nat)
    requires |a| == |b| && m > 0 && n <= |a| && (if tau < 0 then -tau else tau) + |a| <= m
    ensures CircularTo(a, b, m, tau, n) == LinearTo(a, b, tau, n)
  {
    hide Padded;
    if n > 0 {
      CircularIsLinear(a, b, m, tau, n - 1);
      PaddedIndex(b, m, n - 1 + tau);
      ZeroTimes(Padded(a, n - 1));
    }
  }

  lemma ZeroTimes(x: real)
    ensures x * 0.0 == 0.0
  {
  }

  lemma Modulo(r: int, m: nat, q: int)
    requires 0 <= r < m
    ensures (r + q * m) % m == r
  {
    var x := r + q * m;
    assert x == (x / m) * m + x % m;
    Quotient(x / m - q, m, r, x % m);
  }

  lemma Quotient(d: int, m: nat, r: int, s: int)
    requires 0 <= r < m && 0 <= s < m && d * m + s == r
    ensures r == s
  {
    Multiple(d, m);
  }

  lemma Multiple(d: int, m: int)
    requires m >= 0
    ensures d >= 1 ==> d * m >= m
    ensures d <= -1 ==> d * m <= -m
  {
    assert d * m == m + (d - 1) * m == -m + (d + 1) * m;
    if d >= 1 { assert (d - 1) * m >= 0; }
    if d <= -1 { assert (d + 1) * m <= 0; }
  }

  lemma {:induction false} PaddingAddsNothing(a: seq<real>, b: seq<real>, m: nat, tau: int, n: nat)
    requires m > 0 && |a| <= n
    ensures CircularTo(a, b, m, tau, n) == CircularTo(a, b, m, tau, |a|)
    decreases n
  {
    if n > |a| { PaddingAddsNothing(a, b, m, tau, n - 1); }
  }

  /** With enough padding the circular sum is the linear one. */
  lemma EnoughPadding(a: seq<real>, b: seq<real>, m: nat, tau: int)
    requires |a| == |b| && m > 0 && (if tau < 0 then -tau else tau) + |a| <= m
    ensures CircularXcorr(a, b, m, tau) == LinearXcorr(a, b, tau)
  {
    PaddingAddsNothing(a, b, m, tau, m);
    CircularIsLinear(a, b, m, tau, |a|);
  }

  /** The padded length of coupling_matrix: the least power of two from 2n on. */
  function PaddedLength(n: nat, power: nat): (m: nat)
    requires power > 0
    ensures m >= 2 * n && m > 0
    decreases 2 * n - power
  {
    if power >= 2 * n then power else PaddedLength(n, 2 * power)
  }

  ghost predicate PowerOfTwo(m: nat) { m == 1 || (m > 1 && m % 2 == 0 && PowerOfTwo(m / 2)) }

  /** It is a power of two, and half of it is too short. */
  lemma {:induction false} PaddedIsLeast(n: nat, power: nat)
    requires PowerOfTwo(power) && power > 0 && (power == 1 || power < 4 * n)
    ensures PowerOfTwo(PaddedLength(n, power))
    ensures PaddedLength(n, power) == 1 || PaddedLength(n, power) < 4 * n
    decreases 2 * n - power
  {
    if power < 2 * n {
      assert 2 * power / 2 == power;
      PaddedIsLeast(n, 2 * power);
    }
  }

  /** Twice the length is enough for every lag within the series. */
  lemma PaddedLagsAreLinear(a: seq<real>, b: seq<real>, tau: int)
    requires |a| == |b| && -|a| <= tau <= |a|
    ensures CircularXcorr(a, b, PaddedLength(|a|, 1), tau) == LinearXcorr(a, b, tau)
  {
    EnoughPadding(a, b, PaddedLength(|a|, 1), tau);
  }

  function Unit(n: nat, i: nat): (s: seq<real>)
    ensures |s| == n
  {
    seq(n, k => if k == i then 1.0 else 0.0)
  }

  /** With less padding some series wrap around: the end of one meets the start of
      the other. */
  lemma TooLittlePadding(n: nat, m: nat, tau: nat)
    requires 0 < tau < n <= m < n + tau
    ensures exists a, b: seq<real> :: |a| == |b| == n && CircularXcorr(a, b, m, tau) != LinearXcorr(a, b, tau)
  {
    var i := n - 1;
    var j := n - 1 + tau - m;
    Modulo(j, m, 1);
    var a, b := Unit(n, i), Unit(n, j);
    WrapValue(n, m, tau, i, j, m);
    NoWrapValue(n, tau, i, j, n);
    assert CircularXcorr(a, b, m, tau) == 1.0 && LinearXcorr(a, b, tau) == 0.0;
  }

  lemma {:induction false} WrapValue(n: nat, m: nat, tau: nat, i: nat, j: nat, k: nat)
    requires i == n - 1 && n <= m && j < n && (i + tau) % m == j
    ensures CircularTo(Unit(n, i), Unit(n, j), m, tau, k) == if k > i then 1.0 else 0.0
  {
    if k > 0 { WrapValue(n, m, tau, i, j, k - 1); }
  }

  lemma {:induction false} NoWrapValue(n: nat, tau: nat, i: nat, j: nat, k: nat)
    requires i == n - 1 && tau > 0 && j < n
    ensures LinearTo(Unit(n, i), Unit(n, j), tau, k) == 0.0
  {
    if k > 0 { NoWrapValue(n, tau, i, j, k - 1); }
  }

  // ------------------------------------------------------------ the pairs at one lag

  /** The value pairs at a lag where both lanes have a value. */
  function PairsTo(x: seq<real>, y: seq<real>, mx: seq<bool>, my: seq<bool>, tau: int, n: nat): seq<(real, real)> {
    if n == 0 then []
    else
      var t := n - 1;
      PairsTo(x, y, mx, my, tau, t)
      + if 0 <= t + tau < |y| && t < |x| && t < |mx| && t + tau < |my| && mx[t] && my[t + tau]
          then [(x[t], y[t + tau])] else []
  }

  function Pairs(x: seq<real>, y: seq<real>, mx: seq<bool>, my: seq<bool>, tau: int): seq<(real, real)> {
    PairsTo(x, y, mx, my, tau, |x|)
  }

  type Term = (real, real) -> real

  function One(a: real, b: real): real { 1.0 }
  function X(a: real, b: real): real { a }
  function Y(a: real, b: real): real { b }
  function XX(a: real, b: real): real { a * a }
  function YY(a: real, b: real): real { b * b }
  function XY(a: real, b: real): real { a * b }

  function SumOf(p: seq<(real, real)>, h: Term): real {
    if p == [] then 0.0 else SumOf(p[..|p| - 1], h) + h(p[|p| - 1].0, p[|p| - 1].1)
  }

  function Ones(m: seq<bool>): (r: seq<real>)
    ensures |r| == |m|
  {
    seq(|m|, i requires 0 <= i < |m| => if m[i] then 1.0 else 0.0)
  }

  function Squares(x: seq<real>): (r: seq<real>)
    ensures |r| == |x|
  {
    seq(|x|, i requires 0 <= i < |x| => x[i] * x[i])
  }

  /** A lane: zero where it has no value. */
  ghost predicate LaneOk(x: seq<real>, m: seq<bool>) { |x| == |m| && forall i :: 0 <= i < |x| && !m[i] ==> x[i] == 0.0 }

  lemma SumStep(p: seq<(real, real)>, a: real, b: real, h: Term)
    ensures SumOf(p + [(a, b)], h) == SumOf(p, h) + h(a, b)
  {
    assert (p + [(a, b)])[..|p|] == p;
  }

  predicate BothAt(mx: seq<bool>, my: seq<bool>, tau: int, t: nat) {
    t < |mx| && 0 <= t + tau < |my| && mx[t] && my[t + tau]
  }

  /** u times v at the lag is h of the pair where both have values, and zero elsewhere. */
  ghost predicate Yields(u: seq<real>, v: seq<real>, x: seq<real>, y: seq<real>, mx: seq<bool>, my: seq<bool>,
                         tau: int, h: Term)
    requires |x| == |mx| && |y| == |my|
  {
    forall t: nat :: t < |x| && 0 <= t + tau ==>
      Padded(u, t) * Padded(v, t + tau) == if BothAt(mx, my, tau, t) then h(x[t], y[t + tau]) else 0.0
  }

  lemma {:induction false} LinearIsSum(u: seq<real>, v: seq<real>, x: seq<real>, y: seq<real>, mx: seq<bool>,
                                       my: seq<bool>, tau: int, h: Term, n: nat)
    requires |x| == |mx| == |y| == |my| && n <= |x| && Yields(u, v, x, y, mx, my, tau, h)
    ensures LinearTo(u, v, tau, n) == SumOf(PairsTo(x, y, mx, my, tau, n), h)
  {
    if n > 0 {
      var t := n - 1;
      var before := PairsTo(x, y, mx, my, tau, t);
      LinearIsSum(u, v, x, y, mx, my, tau, h, t);
      if BothAt(mx, my, tau, t) {
        SumStep(before, x[t], y[t + tau], h);
      } else {
        assert before + [] == before;
      }
    }
  }

  lemma Pointwise(a: real, b: real, p: bool, q: bool)
    requires (!p ==> a == 0.0) && (!q ==> b == 0.0)
    ensures var u, v := if p then 1.0 else 0.0, if q then 1.0 else 0.0;
            if p && q then
              && u * v == One(a, b) && a * v == X(a, b) && u * b == Y(a, b)
              && (a * a) * v == XX(a, b) && u * (b * b) == YY(a, b)
            else
              && u * v == 0.0 && a * v == 0.0 && u * b == 0.0
              && (a * a) * v == 0.0 && u * (b * b) == 0.0 && a * b == 0.0
  {
  }

  lemma AllYield(x: seq<real>, y: seq<real>, mx: seq<bool>, my: seq<bool>, tau: int)
    requires LaneOk(x, mx) && LaneOk(y, my) && |x| == |y|
    ensures Yields(Ones(mx), Ones(my), x, y, mx, my, tau, One)
    ensures Yields(x, Ones(my), x, y, mx, my, tau, X) && Yields(Ones(mx), y, x, y, mx, my, tau, Y)
    ensures Yields(Squares(x), Ones(my), x, y, mx, my, tau, XX) && Yields(Ones(mx), Squares(y), x, y, mx, my, tau, YY)
    ensures Yields(x, y, x, y, mx, my, tau, XY)
  {
    forall t: nat | t < |x| && 0 <= t + tau
      ensures var both := BothAt(mx, my, tau, t);
              && Padded(Ones(mx), t) * Padded(Ones(my), t + tau) == (if both then One(x[t], y[t + tau]) else 0.0)
              && Padded(x, t) * Padded(Ones(my), t + tau) == (if both then X(x[t], y[t + tau]) else 0.0)
              && Padded(Ones(mx), t) * Padded(y, t + tau) == (if both then Y(x[t], y[t + tau]) else 0.0)
              && Padded(Squares(x), t) * Padded(Ones(my), t + tau) == (if both then XX(x[t], y[t + tau]) else 0.0)
              && Padded(Ones(mx), t) * Padded(Squares(y), t + tau) == (if both then YY(x[t], y[t + tau]) else 0.0)
              && Padded(x, t) * Padded(y, t + tau) == (if both then XY(x[t], y[t + tau]) else 0.0)
    {
      if t + tau < |y| { Pointwise(x[t], y[t + tau], mx[t], my[t + tau]); }
    }
  }

  lemma {:induction false} CountPairs(p: seq<(real, real)>)
    ensures SumOf(p, One) == |p| as real
  {
    if p != [] { CountPairs(p[..|p| - 1]); }
  }

  /** The six sums of the recipe are the moments of exactly the pairs that have both values. */
  lemma Moments(x: seq<real>, y: seq<real>, mx: seq<bool>, my: seq<bool>, tau: int)
    requires LaneOk(x, mx) && LaneOk(y, my) && |x| == |y|
    ensures var p := Pairs(x, y, mx, my, tau);
            && LinearXcorr(Ones(mx), Ones(my), tau) == |p| as real
            && LinearXcorr(x, Ones(my), tau) == SumOf(p, X) && LinearXcorr(Ones(mx), y, tau) == SumOf(p, Y)
            && LinearXcorr(Squares(x), Ones(my), tau) == SumOf(p, XX)
                 && LinearXcorr(Ones(mx), Squares(y), tau) == SumOf(p, YY)
            && LinearXcorr(x, y, tau) == SumOf(p, XY)
  {
    AllYield(x, y, mx, my, tau);
    var n := |x|;
    hide Yields, LinearTo, SumOf, PairsTo, One, X, Y, XX, YY, XY, LaneOk;
    LinearIsSum(Ones(mx), Ones(my), x, y, mx, my, tau, One, n);
    LinearIsSum(x, Ones(my), x, y, mx, my, tau, X, n);
    LinearIsSum(Ones(mx), y, x, y, mx, my, tau, Y, n);
    LinearIsSum(Squares(x), Ones(my), x, y, mx, my, tau, XX, n);
    LinearIsSum(Ones(mx), Squares(y), x, y, mx, my, tau, YY, n);
    LinearIsSum(x, y, x, y, mx, my, tau, XY, n);
    CountPairs(PairsTo(x, y, mx, my, tau, n));
  }

  // ------------------------------------------------------------ Cauchy-Schwarz

  function Deviation(s: real, t: real, c: real, x: real, y: real): (r: real)
    ensures r >= 0.0
  {
    var d := s * x + t * y - c;
    Square(d);
    d * d
  }

  lemma Square(d: real)
    ensures d * d >= 0.0
  {
  }

  /** The sum of the squares of s * x + t * y - c over the pairs. */
  function Spread(p: seq<(real, real)>, s: real, t: real, c: real): (r: real)
    ensures r >= 0.0
  {
    if p == [] then 0.0
    else Spread(p[..|p| - 1], s, t, c) + Deviation(s, t, c, p[|p| - 1].0, p[|p| - 1].1)
  }

  /** What one more pair adds to the moments. */
  function Growth(s: real, t: real, c: real, dxx: real, dxy: real, dyy: real, dx: real, dy: real): real {
    s * s * dxx + 2.0 * (s * t) * dxy + t * t * dyy - 2.0 * c * (s * dx + t * dy) + c * c
  }

  lemma SquareOut(s: real, t: real, c: real, x: real, y: real)
    ensures Deviation(s, t, c, x, y) == Growth(s, t, c, XX(x, y), XY(x, y), YY(x, y), X(x, y), Y(x, y))
  {
    var u, v := s * x, t * y;
    assert (u + v - c) * (u + v - c) == u * u + 2.0 * (u * v) + v * v - 2.0 * c * (u + v) + c * c;
    assert u * u == s * s * (x * x) && v * v == t * t * (y * y) && u * v == (s * t) * (x * y);
  }

  /** The spread in the moments. */
  function Moment(s: real, t: real, c: real, xx: real, xy: real, yy: real, sx: real, sy: real, n: real): real {
    s * s * xx + 2.0 * (s * t) * xy + t * t * yy - 2.0 * c * (s * sx + t * sy) + n * (c * c)
  }

  function SpreadMoment(p: seq<(real, real)>, s: real, t: real, c: real): real {
    Moment(s, t, c, SumOf(p, XX), SumOf(p, XY), SumOf(p, YY), SumOf(p, X), SumOf(p, Y), |p| as real)
  }

  lemma {:induction false} SpreadIs(p: seq<(real, real)>, s: real, t: real, c: real)
    ensures Spread(p, s, t, c) == SpreadMoment(p, s, t, c)
  {
    if p == [] {
      assert Moment(s, t, c, 0.0, 0.0, 0.0, 0.0, 0.0, 0.0) == 0.0;
    } else {
      var q := p[..|p| - 1];
      var x, y := p[|p| - 1].0, p[|p| - 1].1;
      SpreadIs(q, s, t, c);
      assert Spread(p, s, t, c) == Spread(q, s, t, c) + Deviation(s, t, c, x, y);
      hide Moment, Deviation, SumOf, XX, XY, YY, X, Y, Spread;
      hide Growth;
      SquareOut(s, t, c, x, y);
      LastTerm(p, XX);
      LastTerm(p, XY);
      LastTerm(p, YY);
      LastTerm(p, X);
      LastTerm(p, Y);
      assert |p| as real == |q| as real + 1.0;
      Distribute(s, t, c, SumOf(q, XX), SumOf(q, XY), SumOf(q, YY), SumOf(q, X), SumOf(q, Y), |q| as real,
                 XX(x, y), XY(x, y), YY(x, y), X(x, y), Y(x, y));
    }
  }

  lemma LastTerm(p: seq<(real, real)>, h: Term)
    requires p != []
    ensures SumOf(p, h) == SumOf(p[..|p| - 1], h) + h(p[|p| - 1].0, p[|p| - 1].1)
  {
  }

  lemma Distribute(s: real, t: real, c: real, xx: real, xy: real, yy: real, sx: real, sy: real, n: real,
                   dxx: real, dxy: real, dyy: real, dx: real, dy: real)
    ensures Moment(s, t, c, xx + dxx, xy + dxy, yy + dyy, sx + dx, sy + dy, n + 1.0) ==
            Moment(s, t, c, xx, xy, yy, sx, sy, n) + Growth(s, t, c, dxx, dxy, dyy, dx, dy)
  {
    var ss, st, tt := s * s, s * t, t * t;
    assert ss * (xx + dxx) == ss * xx + ss * dxx;
    assert (2.0 * st) * (xy + dxy) == (2.0 * st) * xy + (2.0 * st) * dxy;
    assert tt * (yy + dyy) == tt * yy + tt * dyy;
    assert s * (sx + dx) + t * (sy + dy) == (s * sx + t * sy) + (s * dx + t * dy);
    assert 2.0 * c * ((s * sx + t * sy) + (s * dx + t * dy)) ==
           2.0 * c * (s * sx + t * sy) + 2.0 * c * (s * dx + t * dy);
    assert (n + 1.0) * (c * c) == n * (c * c) + c * c;
  }

  // n times the moments, as rho_at forms them.

  function Covariance(n: real, xy: real, sx: real, sy: real): real { n * xy - sx * sy }

  /** The quadratic form of the two variances and the covariance is never negative. */
  lemma FormPositive(p: seq<(real, real)>, s: real, t: real)
    requires p != []
    ensures var n := |p| as real;
            var a := Covariance(n, SumOf(p, XX), SumOf(p, X), SumOf(p, X));
            var b := Covariance(n, SumOf(p, YY), SumOf(p, Y), SumOf(p, Y));
            var c := Covariance(n, SumOf(p, XY), SumOf(p, X), SumOf(p, Y));
            Form(a, b, c, s, t) >= 0.0
  {
    hide SumOf, Spread, Moment, Covariance;
    var n := |p| as real;
    var c := Divided(s * SumOf(p, X) + t * SumOf(p, Y), n);
    SpreadIs(p, s, t, c);
    Centered(s, t, c, n, SumOf(p, XX), SumOf(p, XY), SumOf(p, YY), SumOf(p, X), SumOf(p, Y));
    ProductPositive(n, Spread(p, s, t, c));
  }

  lemma Divided(l: real, n: real) returns (c: real)
    requires n > 0.0
    ensures c * n == l
  {
    c := l / n;
  }

  lemma ProductPositive(a: real, b: real)
    requires a >= 0.0 && b >= 0.0
    ensures a * b >= 0.0
  {
  }

  lemma Centered(s: real, t: real, c: real, n: real, xx: real, xy: real, yy: real, sx: real, sy: real)
    requires c * n == s * sx + t * sy
    ensures n * Moment(s, t, c, xx, xy, yy, sx, sy, n) ==
            s * s * Covariance(n, xx, sx, sx) + 2.0 * (s * t) * Covariance(n, xy, sx, sy)
                + t * t * Covariance(n, yy, sy, sy)
  {
    var ss, st, tt, l := s * s, s * t, t * t, s * sx + t * sy;
    SquareOfSum(s, t, sx, sy);
    assert n * (c * c) == c * l;
    assert 2.0 * c * l == 2.0 * (c * l);
    assert n * (c * l) == l * l;
    assert n * (ss * xx) == ss * (n * xx) && n * ((2.0 * st) * xy) == (2.0 * st) * (n * xy)
           && n * (tt * yy) == tt * (n * yy);
    Four(n, ss * xx, (2.0 * st) * xy, tt * yy, c * l);
    assert ss * (n * xx - sx * sx) == ss * (n * xx) - ss * (sx * sx);
    assert (2.0 * st) * (n * xy - sx * sy) == (2.0 * st) * (n * xy) - (2.0 * st) * (sx * sy);
    assert tt * (n * yy - sy * sy) == tt * (n * yy) - tt * (sy * sy);
  }

  lemma Four(n: real, a: real, b: real, c: real, d: real)
    ensures n * (a + b + c - 2.0 * d + d) == n * a + n * b + n * c - n * d
  {
  }

  lemma SquareOfSum(s: real, t: real, x: real, y: real)
    ensures (s * x + t * y) * (s * x + t * y) == s * s * (x * x) + (2.0 * (s * t)) * (x * y) + t * t * (y * y)
  {
    var u, v := s * x, t * y;
    assert (u + v) * (u + v) == u * u + 2.0 * (u * v) + v * v;
    assert u * u == s * s * (x * x) && v * v == t * t * (y * y) && u * v == (s * t) * (x * y);
  }

  /** A quadratic form that is never negative has no positive discriminant. */
  lemma Discriminant(a: real, b: real, c: real, atBC: real, atCA: real)
    requires a >= 0.0 && b >= 0.0 && atBC >= 0.0 && atCA >= 0.0
    requires atBC == b * (a * b - c * c) && atCA == a * (a * b - c * c)
    requires a == 0.0 && b == 0.0 ==> c == 0.0
    ensures c * c <= a * b
  {
    var d := a * b - c * c;
    if b > 0.0 {
      SignOf(b, d);
    } else if a > 0.0 {
      SignOf(a, d);
    } else {
      assert c * c == 0.0 && a * b == 0.0;
    }
  }

  lemma SignOf(b: real, d: real)
    requires b > 0.0 && b * d >= 0.0
    ensures d >= 0.0
  {
    assert d == (b * d) / b;
  }

  /** a, b and c as coefficients of a quadratic form in s and t. */
  function Form(a: real, b: real, c: real, s: real, t: real): real { s * s * a + 2.0 * (s * t) * c + t * t * b }

  /** For all pairs: both variances are at least zero, and the squared covariance is at
      most their product. */
  lemma CauchySchwarz(p: seq<(real, real)>)
    ensures var n := |p| as real;
            var a := Covariance(n, SumOf(p, XX), SumOf(p, X), SumOf(p, X));
            var b := Covariance(n, SumOf(p, YY), SumOf(p, Y), SumOf(p, Y));
            var c := Covariance(n, SumOf(p, XY), SumOf(p, X), SumOf(p, Y));
            a >= 0.0 && b >= 0.0 && Product(c, c) <= Product(a, b)
  {
    if p == [] {
      assert SumOf(p, XX) == SumOf(p, YY) == SumOf(p, XY) == SumOf(p, X) == SumOf(p, Y) == 0.0;
    } else {
      hide SumOf, Form, Covariance, Product;
      var n := |p| as real;
      var a := Covariance(n, SumOf(p, XX), SumOf(p, X), SumOf(p, X));
      var b := Covariance(n, SumOf(p, YY), SumOf(p, Y), SumOf(p, Y));
      var c := Covariance(n, SumOf(p, XY), SumOf(p, X), SumOf(p, Y));
      FormPositive(p, 1.0, 0.0);
      FormPositive(p, 0.0, 1.0);
      FormPositive(p, 1.0, 1.0);
      FormPositive(p, 1.0, -1.0);
      FormPositive(p, b, -c);
      FormPositive(p, -c, a);
      PositiveForm(a, b, c);
    }
  }

  lemma PositiveForm(a: real, b: real, c: real)
    requires Form(a, b, c, 1.0, 0.0) >= 0.0 && Form(a, b, c, 0.0, 1.0) >= 0.0
    requires Form(a, b, c, 1.0, 1.0) >= 0.0 && Form(a, b, c, 1.0, -1.0) >= 0.0
    requires Form(a, b, c, b, -c) >= 0.0 && Form(a, b, c, -c, a) >= 0.0
    ensures a >= 0.0 && b >= 0.0 && Product(c, c) <= Product(a, b)
  {
    AtBC(a, b, c);
    Discriminant(a, b, c, b * (a * b - c * c), a * (a * b - c * c));
  }

  lemma AtBC(a: real, b: real, c: real)
    ensures b * b * a + 2.0 * (b * -c) * c + -c * -c * b == b * (a * b - c * c)
    ensures -c * -c * a + 2.0 * (-c * a) * c + a * a * b == a * (a * b - c * c)
  {
    var cc := c * c;
    assert -c * -c == cc && (b * -c) * c == -(b * cc) && (-c * a) * c == -(a * cc);
    assert b * b * a == b * (a * b) && a * a * b == a * (a * b);
  }

  // ------------------------------------------------------------ the correlation at one lag

  function Max(a: real, b: real): real { if a >= b then a else b }
  function Clip(x: real): real { if x < -1.0 then -1.0 else if x > 1.0 then 1.0 else x }

  type Root = real -> real

  ghost predicate RootOk(root: Root) { forall x: real :: x >= 0.0 ==> root(x) >= 0.0 && root(x) * root(x) == x }

  /** num / d, which rho_at only forms for a positive d. */
  function Ratio(num: real, d: real): real { if d == 0.0 then 0.0 else num / d }

  function Product(a: real, b: real): real { a * b }

  /** rho_at on the six sums, with its clamps and its clip; the count is an integer in
      exact arithmetic. */
  function RhoAt(xy: real, sx: real, sy: real, xx: real, yy: real, n: real, root: Root): Maybe<(real, real)> {
    if n < N_MIN as real then Nothing
    else
      var varX, varY := Max(Covariance(n, xx, sx, sx), 0.0), Max(Covariance(n, yy, sy, sy), 0.0);
      if varX <= EPSILON || varY <= EPSILON then Nothing
      else Just((Clip(Ratio(Covariance(n, xy, sx, sy), root(Product(varX, varY)))), n))
  }

  lemma RootPositive(root: Root, product: real)
    requires RootOk(root) && product > 0.0
    ensures root(product) > 0.0 && Product(root(product), root(product)) == product
  {
    var r := root(product);
    assert r >= 0.0 && r * r == product;
    hide RootOk;
    ZeroSquared(r);
  }

  lemma ZeroSquared(r: real)
    ensures r == 0.0 ==> r * r == 0.0
  {
  }

  lemma ProductAbove(a: real, b: real)
    requires a > 0.0 && b > 0.0
    ensures Product(a, b) > 0.0
  {
  }

  /** |num| <= root whenever num squared is at most root squared. */
  lemma RatioBound(num: real, root: real)
    requires root > 0.0 && Product(num, num) <= Product(root, root)
    ensures -1.0 <= Ratio(num, root) <= 1.0
  {
    AtMost(num, root);
    AtMost(-num, root);
    assert -num * -num == num * num;
    Bounded(num, root);
  }

  lemma AtMost(a: real, b: real)
    requires b > 0.0 && a * a <= b * b
    ensures a <= b
  {
    Larger(a, b);
  }

  lemma Larger(a: real, b: real)
    requires b > 0.0
    ensures a > b ==> a * a > b * b
  {
    if a > b {
      assert a * a > a * b;
      assert a * b > b * b;
    }
  }

  lemma Bounded(num: real, root: real)
    requires root > 0.0 && -root <= num <= root
    ensures -1.0 <= num / root <= 1.0
  {
    assert root / root == 1.0 && -root / root == -1.0;
  }

  lemma ClipOnMoments(a: real, b: real, c: real, root: Root)
    requires RootOk(root) && a > 0.0 && b > 0.0 && Product(c, c) <= Product(a, b)
    ensures var d := root(Product(a, b));
            d > 0.0 && -1.0 <= Ratio(c, d) <= 1.0 && Clip(Ratio(c, d)) == Ratio(c, d)
  {
    hide Product, RootOk, Ratio;
    ProductAbove(a, b);
    RootPositive(root, Product(a, b));
    RatioBound(c, root(Product(a, b)));
  }

  /** The covariance, scaled by the count, and its ratio to the root of the variances. */
  lemma ScaledCovariance(n: real, xy: real, sx: real, sy: real, d: real)
    ensures Covariance(n, xy, sx, sy) == n * xy - sx * sy
    ensures d > 0.0 ==> Ratio(xy, d) * d == xy
  {
  }

  /** rho_at on the circular sums of two lanes. */
  function RhoOf(x: seq<real>, y: seq<real>, mx: seq<bool>, my: seq<bool>, m: nat, tau: int,
                 root: Root): Maybe<(real, real)>
    requires m > 0
  {
    RhoAt(CircularXcorr(x, y, m, tau), CircularXcorr(x, Ones(my), m, tau), CircularXcorr(Ones(mx), y, m, tau),
          CircularXcorr(Squares(x), Ones(my), m, tau), CircularXcorr(Ones(mx), Squares(y), m, tau),
          CircularXcorr(Ones(mx), Ones(my), m, tau), root)
  }

  /** Where the moments are those of some pairs, rho_at is the bare ratio. */
  lemma RhoBare(xy: real, sx: real, sy: real, xx: real, yy: real, n: real, root: Root)
    requires RootOk(root)
    requires Covariance(n, xx, sx, sx) >= 0.0 && Covariance(n, yy, sy, sy) >= 0.0
    requires var c := Covariance(n, xy, sx, sy);
             Product(c, c) <= Product(Covariance(n, xx, sx, sx), Covariance(n, yy, sy, sy))
    ensures var a, b, c := Covariance(n, xx, sx, sx), Covariance(n, yy, sy, sy), Covariance(n, xy, sx, sy);
            var rho := Ratio(c, root(Product(a, b)));
            && RhoAt(xy, sx, sy, xx, yy, n, root) ==
               (if n < N_MIN as real || a <= EPSILON || b <= EPSILON then Nothing else Just((rho, n)))
            && (a > EPSILON && b > EPSILON ==> root(Product(a, b)) > 0.0 && -1.0 <= rho <= 1.0)
  {
    hide Covariance, Product, RootOk, Ratio, Clip;
    var a, b, c := Covariance(n, xx, sx, sx), Covariance(n, yy, sy, sy), Covariance(n, xy, sx, sy);
    if a > EPSILON && b > EPSILON { ClipOnMoments(a, b, c, root); }
  }

  /** With the padding of coupling_matrix, for any two lanes, masks and lags, neither the
      clamps nor the clip of rho_at change anything: it returns the covariance over the
      root of the variances of the pairs that both lanes have, and their number. */
  lemma ClipNeverActs(x: seq<real>, y: seq<real>, mx: seq<bool>, my: seq<bool>, tau: int, root: Root)
    requires LaneOk(x, mx) && LaneOk(y, my) && |x| == |y| && -|x| <= tau <= |x| && RootOk(root)
    ensures var p := Pairs(x, y, mx, my, tau);
            var n := |p| as real;
            var a := Covariance(n, SumOf(p, XX), SumOf(p, X), SumOf(p, X));
            var b := Covariance(n, SumOf(p, YY), SumOf(p, Y), SumOf(p, Y));
            var c := Covariance(n, SumOf(p, XY), SumOf(p, X), SumOf(p, Y));
            var rho := Ratio(c, root(Product(a, b)));
            && a >= 0.0 && b >= 0.0 && Product(c, c) <= Product(a, b)
            && RhoOf(x, y, mx, my, PaddedLength(|x|, 1), tau, root) ==
               (if n < 100.0 || a <= 0.000000001 || b <= 0.000000001 then Nothing else Just((rho, n)))
            && (a > 0.000000001 && b > 0.000000001 ==> root(Product(a, b)) > 0.0 && -1.0 <= rho <= 1.0)
  {
    hide CircularXcorr, LinearXcorr, Pairs, LaneOk, SumOf, RootOk, PaddedLength, Ones, Squares, Clip, Ratio,
         Covariance, Product, RhoAt;
    var p := Pairs(x, y, mx, my, tau);
    Moments(x, y, mx, my, tau);
    CauchySchwarz(p);
    assert |x| == |y| == |mx| == |my| by { LaneSizes(x, y, mx, my); }
    PaddedLagsAreLinear(Ones(mx), Ones(my), tau);
    PaddedLagsAreLinear(x, Ones(my), tau);
    PaddedLagsAreLinear(Ones(mx), y, tau);
    PaddedLagsAreLinear(Squares(x), Ones(my), tau);
    PaddedLagsAreLinear(Ones(mx), Squares(y), tau);
    PaddedLagsAreLinear(x, y, tau);
    RhoBare(SumOf(p, XY), SumOf(p, X), SumOf(p, Y), SumOf(p, XX), SumOf(p, YY), |p| as real, root);
  }

  lemma LaneSizes(x: seq<real>, y: seq<real>, mx: seq<bool>, my: seq<bool>)
    requires LaneOk(x, mx) && LaneOk(y, my)
    ensures |x| == |mx| && |y| == |my|
  {
  }
}
