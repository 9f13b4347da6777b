/**
 The scaling estimate over reals: pooled running means, and the least-squares line
 through the logarithms of the points.
 */
module ScalingFit {
  import opened Results

  /** Products, named so that they are compared as wholes. */
  function Mul(x: real, y: real): real { x * y }

  function Sq(x: real): real { Mul(x, x) }

  /** The point so far along the way from p to q. */
  function Blend(p: real, q: real, t: real): real { p + (q - p) * t }

  /** One measurement that counts: an input value with the mean of so many samples. */
  datatype Measurement = Measurement(input: real, mean: real, count: nat)

  datatype Pooled = Pooled(mean: real, count: nat)

  /** The samples at an input value, and the sum of their values. */
  function Weight(ms: seq<Measurement>, x: real): nat {
    if ms == [] then 0
    else Weight(ms[..|ms| - 1], x) + if ms[|ms| - 1].input == x then ms[|ms| - 1].count else 0
  }

  function Moment(ms: seq<Measurement>, x: real): real {
    if ms == [] then 0.0
    else
      var m := ms[|ms| - 1];
      Moment(ms[..|ms| - 1], x) + if m.input == x then Mul(m.mean, m.count as real) else 0.0
  }

  /** What an input value is pooled to: the mean over all of its samples. */
  ghost predicate IsMean(p: Pooled, ms: seq<Measurement>, x: real) {
    p.count == Weight(ms, x) && Mul(p.mean, p.count as real) == Moment(ms, x)
  }

  function Joined(prior: Pooled, m: Measurement): (r: Pooled)
    requires m.count > 0
  {
    var count := prior.count + m.count;
    if prior.count == 0 then Pooled(m.mean, count)
    else Pooled(Blend(prior.mean, m.mean, m.count as real / count as real), count)
  }

  /** A running mean stays between the bounds of what it has seen. */
  lemma JoinedWithin(prior: Pooled, m: Measurement, lo: real, hi: real)
    requires m.count > 0 && lo <= m.mean <= hi && (prior.count > 0 ==> lo <= prior.mean <= hi)
    ensures lo <= Joined(prior, m).mean <= hi
  {
    if prior.count > 0 {
      var k, n := m.count as real, (prior.count + m.count) as real;
      Between(prior.mean, m.mean, k / n, lo, hi);
    }
  }

  lemma NoSign(x: real, y: real)
    requires x >= 0.0 && y >= 0.0
    ensures x * y >= 0.0
  {
  }

  lemma Towards(p: real, q: real, t: real, d: real)
    requires 0.0 <= t <= 1.0 && p <= q && d == q - p
    ensures p <= Blend(p, q, t) <= q
  {
    NoSign(d, t);
    NoSign(d, 1.0 - t);
    assert d * (1.0 - t) == d - d * t;
    assert d * t == (q - p) * t;
  }

  lemma Back(p: real, q: real, t: real, d: real)
    requires 0.0 <= t <= 1.0 && q <= p && d == p - q
    ensures q <= Blend(p, q, t) <= p
  {
    NoSign(d, t);
    NoSign(d, 1.0 - t);
    assert d * (1.0 - t) == d - d * t;
    assert d * t == -((q - p) * t);
  }

  lemma Between(p: real, q: real, t: real, lo: real, hi: real)
    requires 0.0 <= t <= 1.0 && lo <= p <= hi && lo <= q <= hi
    ensures lo <= Blend(p, q, t) <= hi
  {
    if p <= q {
      Towards(p, q, t, q - p);
    } else {
      Back(p, q, t, p - q);
    }
  }

  lemma OneMore(ms: seq<Measurement>, m: Measurement, x: real)
    ensures Weight(ms + [m], x) == Weight(ms, x) + if m.input == x then m.count else 0
    ensures Moment(ms + [m], x) == Moment(ms, x) + if m.input == x then Mul(m.mean, m.count as real) else 0.0
  {
    assert (ms + [m])[..|ms|] == ms;
  }

  /** The measurements at an input value lie between two bounds. */
  ghost predicate Within(ms: seq<Measurement>, x: real, lo: real, hi: real) {
    forall m <- ms :: m.input == x ==> lo <= m.mean <= hi
  }

  /** The pooled series: exactly the input values that were measured, each with the mean
      of all of its samples, within the bounds of its measurements. */
  ghost predicate PoolsTo(series: map<real, Pooled>, ms: seq<Measurement>) {
    && (forall x: real :: x in series <==> Weight(ms, x) > 0)
    && (forall x <- series :: IsMean(series[x], ms, x))
    && (forall x <- series, lo: real, hi: real :: Within(ms, x, lo, hi) ==> lo <= series[x].mean <= hi)
  }

  lemma PriorIsMean(series: map<real, Pooled>, ms: seq<Measurement>, x: real)
    requires PoolsTo(series, ms)
    ensures var prior := if x in series then series[x] else Pooled(0.0, 0);
            IsMean(prior, ms, x) && (prior.count > 0 <==> x in series)
  {
    hide Weight, Moment, Within;
    NoMoment(ms, x);
  }

  lemma MeanOneMore(prior: Pooled, ms: seq<Measurement>, m: Measurement)
    requires IsMean(prior, ms, m.input) && m.count > 0 && (prior.count == 0 ==> prior.mean == 0.0)
    ensures IsMean(Joined(prior, m), ms + [m], m.input)
  {
    OneMore(ms, m, m.input);
  }

  lemma PoolOneMore(series: map<real, Pooled>, ms: seq<Measurement>, m: Measurement)
    requires PoolsTo(series, ms) && m.count > 0
    ensures var prior := if m.input in series then series[m.input] else Pooled(0.0, 0);
            PoolsTo(series[m.input := Joined(prior, m)], ms + [m])
  {
    var prior := if m.input in series then series[m.input] else Pooled(0.0, 0);
    var more, after := ms + [m], series[m.input := Joined(prior, m)];
    PriorIsMean(series, ms, m.input);
    MeanOneMore(prior, ms, m);
    hide Weight, Moment, Joined, Within;
    forall x: real
      ensures x in after <==> Weight(more, x) > 0
    {
      OneMore(ms, m, x);
    }
    forall x <- after
      ensures IsMean(after[x], more, x)
    {
      OneMore(ms, m, x);
    }
    forall x <- after, lo: real, hi: real | Within(more, x, lo, hi)
      ensures lo <= after[x].mean <= hi
    {
      assert Within(ms, x, lo, hi) && (m.input == x ==> lo <= m.mean <= hi);
      if x == m.input {
        JoinedWithin(prior, m, lo, hi);
      }
    }
  }

  lemma {:induction false} NoMoment(ms: seq<Measurement>, x: real)
    ensures Weight(ms, x) == 0 ==> Moment(ms, x) == 0.0
  {
    if ms != [] {
      NoMoment(ms[..|ms| - 1], x);
      var m := ms[|ms| - 1];
      if m.count == 0 {
        assert Mul(m.mean, m.count as real) == 0.0;
      }
    }
  }

  /** The loop over the rows of one series. */
  method PoolMeasurements(ms: seq<Measurement>) returns (series: map<real, Pooled>)
    requires forall m <- ms :: m.count > 0
    ensures PoolsTo(series, ms)
  {
    hide PoolsTo;
    series := map[];
    Nothing();
    assert ms[..0] == [];
    for i := 0 to |ms|
      invariant PoolsTo(series, ms[..i])
    {
      var m := ms[i];
      assert ms[..i + 1] == ms[..i] + [m] && m in ms;
      PoolOneMore(series, ms[..i], m);
      var prior := if m.input in series then series[m.input] else Pooled(0.0, 0);
      series := series[m.input := Joined(prior, m)];
    }
    assert ms[..|ms|] == ms;
  }

  lemma Nothing()
    ensures PoolsTo(map[], [])
  {
  }

  lemma Swapped(ms: seq<Measurement>, a: Measurement, b: Measurement, x: real)
    ensures Weight((ms + [a]) + [b], x) == Weight((ms + [b]) + [a], x)
    ensures Moment((ms + [a]) + [b], x) == Moment((ms + [b]) + [a], x)
  {
    OneMore(ms, a, x);
    OneMore(ms, b, x);
    OneMore(ms + [a], b, x);
    OneMore(ms + [b], a, x);
  }

  lemma {:induction false} Without(ms: seq<Measurement>, i: nat, x: real)
    requires i < |ms|
    ensures var rest := ms[..i] + ms[i + 1..];
            && Weight(ms, x) == Weight(rest + [ms[i]], x) && Moment(ms, x) == Moment(rest + [ms[i]], x)
  {
    hide Weight, Moment;
    var k := |ms| - 1;
    var rest := ms[..i] + ms[i + 1..];
    if i == k {
      assert rest + [ms[i]] == ms;
    } else {
      var front := ms[..k];
      var others := front[..i] + front[i + 1..];
      Without(front, i, x);
      OneMore(front, ms[k], x);
      OneMore(others + [ms[i]], ms[k], x);
      Swapped(others, ms[i], ms[k], x);
      assert front + [ms[k]] == ms;
      assert others + [ms[k]] == rest;
    }
  }

  lemma TakeOut(b: seq<Measurement>, i: nat)
    requires i < |b|
    ensures multiset(b[..i] + b[i + 1..]) == multiset(b) - multiset{b[i]}
  {
    assert b == b[..i] + ([b[i]] + b[i + 1..]);
    assert multiset(b) == multiset(b[..i]) + multiset{b[i]} + multiset(b[i + 1..]);
  }

  /** The order of the measurements does not matter. */
  lemma {:induction false} AnyOrder(a: seq<Measurement>, b: seq<Measurement>, x: real)
    requires multiset(a) == multiset(b)
    ensures Weight(a, x) == Weight(b, x) && Moment(a, x) == Moment(b, x)
  {
    if a == [] {
      assert |b| == |multiset(b)| == |multiset(a)| == 0;
    } else {
      hide *;
      var k := |a| - 1;
      var front := a[..k];
      var i := Peel(a, b);
      var rest := b[..i] + b[i + 1..];
      AnyOrder(front, rest, x);
      Without(b, i, x);
      OneMore(front, a[k], x);
      OneMore(rest, a[k], x);
      assert a == front + [a[k]];
    }
  }

  lemma Peel(a: seq<Measurement>, b: seq<Measurement>) returns (i: nat)
    requires a != [] && multiset(a) == multiset(b)
    ensures i < |b| && b[i] == a[|a| - 1]
    ensures multiset(a[..|a| - 1]) == multiset(b[..i] + b[i + 1..])
  {
    var m := a[|a| - 1];
    assert m in multiset(b);
    i :| 0 <= i < |b| && b[i] == m;
    TakeOut(b, i);
    TakeOut(a, |a| - 1);
    assert a[..|a| - 1] + a[|a|..] == a[..|a| - 1];
  }

  lemma PooledAnyOrder(s: map<real, Pooled>, t: map<real, Pooled>, a: seq<Measurement>, b: seq<Measurement>)
    requires PoolsTo(s, a) && PoolsTo(t, b) && multiset(a) == multiset(b)
    ensures s == t
  {
    forall x: real
      ensures x in s <==> x in t
    {
      AnyOrder(a, b, x);
    }
    forall x <- s
      ensures s[x] == t[x]
    {
      AnyOrder(a, b, x);
      var n := Weight(a, x) as real;
      assert IsMean(s[x], a, x) && IsMean(t[x], b, x);
      assert Weight(a, x) > 0;
      assert Mul(s[x].mean, n) == Moment(a, x) && Mul(t[x].mean, n) == Moment(b, x);
      Cancel(s[x].mean, t[x].mean, n);
    }
  }

  lemma Cancel(p: real, q: real, n: real)
    requires n > 0.0 && Mul(p, n) == Mul(q, n)
    ensures p == q
  {
    assert p == p * n / n && q == q * n / n;
  }

  /** The logarithms of an input value and of its mean. */
  datatype Point = Point(u: real, v: real)

  /** Sums over the points, each about given centres. */
  function SumU(ps: seq<Point>): real { if ps == [] then 0.0 else ps[0].u + SumU(ps[1..]) }

  function SumV(ps: seq<Point>): real { if ps == [] then 0.0 else ps[0].v + SumV(ps[1..]) }

  function SumUU(ps: seq<Point>, c: real): real {
    if ps == [] then 0.0 else Sq(ps[0].u - c) + SumUU(ps[1..], c)
  }

  function SumUV(ps: seq<Point>, c: real, d: real): real {
    if ps == [] then 0.0 else Mul(ps[0].u - c, ps[0].v - d) + SumUV(ps[1..], c, d)
  }

  function SumVV(ps: seq<Point>, d: real): real {
    if ps == [] then 0.0 else Sq(ps[0].v - d) + SumVV(ps[1..], d)
  }

  function Line(a: real, b: real, u: real): real { a + b * u }

  /** The squared residual of a line. */
  function Residual(ps: seq<Point>, intercept: real, slope: real): real {
    if ps == [] then 0.0 else Sq(ps[0].v - Line(intercept, slope, ps[0].u)) + Residual(ps[1..], intercept, slope)
  }

  datatype Fit = Fit(slope: real, intercept: real, residual: real, total: real, variance: real, rSquared: real)

  function MeanU(ps: seq<Point>): real
    requires ps != []
  {
    SumU(ps) / |ps| as real
  }

  function MeanV(ps: seq<Point>): real
    requires ps != []
  {
    SumV(ps) / |ps| as real
  }

  /** The estimate, or None when the inputs do not tell a slope. */
  function Estimate(ps: seq<Point>): Option<Fit> {
    if |ps| < 2 then None
    else
      var mu, mv := MeanU(ps), MeanV(ps);
      var variance := SumUU(ps, mu);
      if variance <= 0.0 then None
      else
        var slope := SumUV(ps, mu, mv) / variance;
        var intercept := mv - Mul(slope, mu);
        var residual, total := Residual(ps, intercept, slope), SumVV(ps, mv);
        var raw := if total == 0.0 then 1.0 else 1.0 - residual / total;
        Some(Fit(slope, intercept, residual, total, variance, if raw > 0.0 then raw else 0.0))
  }

  /** The residual of a line from sums about centres (c, d); e is what the line misses
      the centres by. */
  function About(vv: real, uv: real, uu: real, su: real, sv: real, n: real, b: real, e: real): real {
    vv - 2.0 * b * uv + b * b * uu + n * (e * e) + 2.0 * e * (sv - b * su)
  }

  /** The sums of the distances from the centres. */
  function OffU(ps: seq<Point>, c: real): real { if ps == [] then 0.0 else (ps[0].u - c) + OffU(ps[1..], c) }

  function OffV(ps: seq<Point>, d: real): real { if ps == [] then 0.0 else (ps[0].v - d) + OffV(ps[1..], d) }

  lemma OnePoint(p: Point, a: real, b: real, c: real, d: real, e: real,
                 vv: real, uv: real, uu: real, su: real, sv: real, n: real)
    requires e == d - Line(a, b, c)
    ensures Sq(p.v - Line(a, b, p.u)) + About(vv, uv, uu, su, sv, n, b, e)
         == About(Sq(p.v - d) + vv, Mul(p.u - c, p.v - d) + uv, Sq(p.u - c) + uu, (p.u - c) + su, (p.v - d) + sv, n + 1.0, b, e)
  {
    var x, y := p.u - c, p.v - d;
    assert p.v - Line(a, b, p.u) == e + (y - b * x);
  }

  /** The residual of any line, from the sums about any centres. */
  lemma {:induction false} ResidualAbout(ps: seq<Point>, a: real, b: real, c: real, d: real, e: real)
    requires e == d - Line(a, b, c)
    ensures Residual(ps, a, b)
         == About(SumVV(ps, d), SumUV(ps, c, d), SumUU(ps, c), OffU(ps, c), OffV(ps, d), |ps| as real, b, e)
  {
    if ps != [] {
      var rest := ps[1..];
      ResidualAbout(rest, a, b, c, d, e);
      OnePoint(ps[0], a, b, c, d, e, SumVV(rest, d), SumUV(rest, c, d), SumUU(rest, c), OffU(rest, c), OffV(rest, d),
               |rest| as real);
      hide About, Sq, Mul, Line;
      assert |ps| as real == |rest| as real + 1.0;
    }
  }

  lemma {:induction false} Off(ps: seq<Point>, c: real)
    ensures OffU(ps, c) == SumU(ps) - Mul(|ps| as real, c) && OffV(ps, c) == SumV(ps) - Mul(|ps| as real, c)
  {
    if ps != [] {
      Off(ps[1..], c);
      hide Mul;
      assert |ps| as real == |ps[1..]| as real + 1.0;
    }
  }

  lemma Average(s: real, n: real)
    requires n > 0.0
    ensures Mul(n, s / n) == s
  {
  }

  /** About the means the distances cancel. */
  lemma Balanced(ps: seq<Point>)
    requires ps != []
    ensures OffU(ps, MeanU(ps)) == 0.0 && OffV(ps, MeanV(ps)) == 0.0
  {
    hide Mul, OffU, OffV, SumU, SumV;
    Off(ps, MeanU(ps));
    Off(ps, MeanV(ps));
    Average(SumU(ps), |ps| as real);
    Average(SumV(ps), |ps| as real);
  }

  lemma AboutMeans(vv: real, uv: real, uu: real, su: real, sv: real, n: real, b: real, e: real)
    requires su == 0.0 && sv == 0.0
    ensures About(vv, uv, uu, su, sv, n, b, e) == vv - 2.0 * Mul(b, uv) + Mul(Sq(b), uu) + Mul(n, Sq(e))
  {
  }

  /** The residual of any line: the fitted one's, and two squares. */
  lemma AboveFitted(ps: seq<Point>, a: real, b: real)
    requires Estimate(ps).Some?
    ensures var f := Estimate(ps).value;
            var g := (a - f.intercept) + Mul(b - f.slope, MeanU(ps));
            && Residual(ps, a, b) == f.residual + Mul(Sq(b - f.slope), f.variance) + Mul(|ps| as real, Sq(g))
            && f.residual == f.total - Mul(Sq(f.slope), f.variance)
  {
    hide Residual, SumVV, SumUV, SumUU, OffU, OffV, MeanU, MeanV, Mul, Sq, Line, About;
    var f := Estimate(ps).value;
    var mu, mv := MeanU(ps), MeanV(ps);
    var uu, uv, vv, n := SumUU(ps, mu), SumUV(ps, mu, mv), SumVV(ps, mv), |ps| as real;
    Balanced(ps);
    Quotient(uv, uu, f.slope);
    var e, e0 := mv - Line(a, b, mu), mv - Line(f.intercept, f.slope, mu);
    ResidualAbout(ps, a, b, mu, mv, e);
    ResidualAbout(ps, f.intercept, f.slope, mu, mv, e0);
    AboutMeans(vv, uv, uu, OffU(ps, mu), OffV(ps, mv), n, b, e);
    AboutMeans(vv, uv, uu, OffU(ps, mu), OffV(ps, mv), n, f.slope, e0);
    Squares(vv, uv, uu, f.slope, b);
    Squares(vv, uv, uu, f.slope, f.slope);
    Missed(a, b, f.intercept, f.slope, mu, mv, e, n);
    Missed(f.intercept, f.slope, f.intercept, f.slope, mu, mv, e0, n);
    NoDifference(f.slope, f.intercept, mu, uu, n);
  }

  lemma Quotient(uv: real, uu: real, s: real)
    requires uu > 0.0 && s == uv / uu
    ensures uv == Mul(s, uu)
  {
  }

  lemma Squares(vv: real, uv: real, uu: real, s: real, b: real)
    requires uv == Mul(s, uu)
    ensures vv - 2.0 * Mul(b, uv) + Mul(Sq(b), uu) == (vv - Mul(Sq(s), uu)) + Mul(Sq(b - s), uu)
  {
    assert (b - s) * (b - s) == b * b - 2.0 * b * s + s * s;
    assert b * (s * uu) == b * s * uu;
    assert ((b - s) * (b - s)) * uu == b * b * uu - 2.0 * (b * s * uu) + s * s * uu;
  }

  /** What a line misses the means by. */
  lemma Missed(a: real, b: real, i: real, s: real, mu: real, mv: real, e: real, n: real)
    requires i == mv - Mul(s, mu) && e == mv - Line(a, b, mu)
    ensures Mul(n, Sq(e)) == Mul(n, Sq((a - i) + Mul(b - s, mu)))
  {
    assert (b - s) * mu == b * mu - s * mu;
    assert (a - i) + Mul(b - s, mu) == -e;
    assert (-e) * (-e) == e * e;
  }

  lemma NoDifference(s: real, i: real, mu: real, uu: real, n: real)
    ensures Mul(Sq(s - s), uu) == 0.0 && Mul(n, Sq((i - i) + Mul(s - s, mu))) == 0.0
  {
  }

  lemma SameSign(x: real, y: real)
    requires (x > 0.0 && y > 0.0) || (x < 0.0 && y < 0.0)
    ensures Mul(x, y) > 0.0
  {
  }

  lemma SqSign(x: real)
    ensures Sq(x) >= 0.0 && (Sq(x) == 0.0 ==> x == 0.0)
  {
    hide Mul;
    if x != 0.0 {
      SameSign(x, x);
    } else {
      SqZero(x);
    }
  }

  lemma SqZero(x: real)
    requires x == 0.0
    ensures Sq(x) == 0.0
  {
  }

  lemma MulSign(x: real, y: real)
    requires x >= 0.0 && y > 0.0
    ensures Mul(x, y) >= 0.0 && (Mul(x, y) == 0.0 ==> x == 0.0)
  {
    if x > 0.0 {
      assert x * y > 0.0;
    }
  }

  lemma {:induction false} NonNegative(ps: seq<Point>, a: real, b: real, c: real)
    ensures Residual(ps, a, b) >= 0.0 && SumUU(ps, c) >= 0.0 && SumVV(ps, c) >= 0.0
  {
    hide Sq, Line;
    if ps != [] {
      NonNegative(ps[1..], a, b, c);
      SqSign(ps[0].v - Line(a, b, ps[0].u));
      SqSign(ps[0].u - c);
      SqSign(ps[0].v - c);
    }
  }

  /** The estimate is the only line of least residual. */
  lemma LeastSquares(ps: seq<Point>, a: real, b: real)
    requires Estimate(ps).Some?
    ensures var f := Estimate(ps).value;
            && f.residual <= Residual(ps, a, b)
            && (Residual(ps, a, b) == f.residual ==> a == f.intercept && b == f.slope)
  {
    hide Residual, SumVV, SumUV, SumUU, MeanU, MeanV, Mul, Sq;
    AboveFitted(ps, a, b);
    var f := Estimate(ps).value;
    var mu := MeanU(ps);
    var h, g, n := b - f.slope, (a - f.intercept) + Mul(b - f.slope, mu), |ps| as real;
    SqSign(h);
    SqSign(g);
    MulSign(Sq(h), f.variance);
    Swap(n, Sq(g));
    MulSign(Sq(g), n);
    if Residual(ps, a, b) == f.residual {
      ZeroFirst(b - f.slope, mu);
    }
  }

  lemma Swap(x: real, y: real)
    ensures Mul(x, y) == Mul(y, x)
  {
  }

  lemma ZeroFirst(x: real, y: real)
    requires x == 0.0
    ensures Mul(x, y) == 0.0
  {
  }

  /** r squared lies between 0 and 1 before it is clamped. */
  lemma Explained(ps: seq<Point>)
    requires Estimate(ps).Some?
    ensures var f := Estimate(ps).value;
            && 0.0 <= f.residual <= f.total && 0.0 <= f.rSquared <= 1.0
            && (f.total != 0.0 ==> f.rSquared == 1.0 - f.residual / f.total)
            && (f.total == 0.0 ==> f.residual == 0.0 && f.rSquared == 1.0)
  {
    hide Residual, SumVV, SumUV, SumUU, MeanU, MeanV, Mul, Sq;
    var f := Estimate(ps).value;
    AboveFitted(ps, f.intercept, f.slope);
    NonNegative(ps, f.intercept, f.slope, MeanV(ps));
    SqSign(f.slope);
    MulSign(Sq(f.slope), f.variance);
  }

  lemma {:induction false} OnLine(ps: seq<Point>, a: real, b: real)
    requires forall p <- ps :: p.v == Line(a, b, p.u)
    ensures Residual(ps, a, b) == 0.0
  {
    hide Line, Sq;
    if ps != [] {
      assert ps[0] in ps;
      OnLine(ps[1..], a, b);
      SqZero(ps[0].v - Line(a, b, ps[0].u));
    }
  }

  /** Points of an exact power law give back its exponent and coefficient. */
  lemma PowerLaw(ps: seq<Point>, a: real, b: real)
    requires Estimate(ps).Some? && forall p <- ps :: p.v == Line(a, b, p.u)
    ensures var f := Estimate(ps).value;
            f.slope == b && f.intercept == a && f.residual == 0.0 && f.rSquared == 1.0
  {
    hide Estimate, Line, Residual;
    OnLine(ps, a, b);
    LeastSquares(ps, a, b);
    Explained(ps);
    var f := Estimate(ps).value;
  }

  lemma {:induction false} NoVariance(ps: seq<Point>, c: real)
    requires SumUU(ps, c) <= 0.0
    ensures forall p <- ps :: p.u == c
  {
    hide Sq;
    if ps != [] {
      NonNegative(ps[1..], 0.0, 0.0, c);
      SqSign(ps[0].u - c);
      NoVariance(ps[1..], c);
      assert ps == [ps[0]] + ps[1..];
    }
  }

  /** Two different inputs are enough for an estimate. */
  lemma TwoInputsSuffice(ps: seq<Point>, i: nat, j: nat)
    requires i < j < |ps| && ps[i].u != ps[j].u
    ensures Estimate(ps).Some?
  {
    hide SumUV, SumVV, Residual, SumUU;
    assert ps[i] in ps && ps[j] in ps;
    if SumUU(ps, MeanU(ps)) <= 0.0 {
      NoVariance(ps, MeanU(ps));
      assert false;
    }
  }
}
