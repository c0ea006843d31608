/** The exponentially weighted baseline of a metric (src/lib/server/anomaly/engine.ts,
    ewmaUpdate and classify), over reals. */
module Ewma {
  import opened Options

  datatype Baseline = Baseline(mean: real, variance: real, n: nat)

  /** Fold one value into the running mean and variance. */
  function EwmaUpdate(prev: Option<Baseline>, value: real, alpha: real): Baseline {
    if prev.None? || prev.value.n == 0 then Baseline(value, 0.0, 1)
    else
      var d := value - prev.value.mean;
      Baseline(prev.value.mean + alpha * d,
               (1.0 - alpha) * (prev.value.variance + alpha * d * d),
               prev.value.n + 1)
  }

  /** The baseline after a non-empty history, oldest value first. */
  function BaselineOf(alpha: real, xs: seq<real>): Baseline
    requires xs != []
  {
    if |xs| == 1 then EwmaUpdate(None, xs[0], alpha)
    else EwmaUpdate(Some(BaselineOf(alpha, xs[..|xs| - 1])), xs[|xs| - 1], alpha)
  }

  // ----- the definition it should meet -----

  function Power(b: real, k: nat): real {
    if k == 0 then 1.0 else b * Power(b, k - 1)
  }

  /** The weight of the `i`-th of `n` values: each newer value takes a share alpha, and the
      oldest keeps what is left. */
  function Weight(alpha: real, n: nat, i: nat): real
    requires i < n
  {
    if i == 0 then Power(1.0 - alpha, n - 1) else alpha * Power(1.0 - alpha, n - 1 - i)
  }

  function Sum(ts: seq<real>): real {
    if ts == [] then 0.0 else Sum(ts[..|ts| - 1]) + ts[|ts| - 1]
  }

  function Term(alpha: real, ys: seq<real>, i: nat): real
    requires i < |ys|
  {
    Weight(alpha, |ys|, i) * ys[i]
  }

  function Terms(alpha: real, ys: seq<real>): (ts: seq<real>)
    ensures |ts| == |ys|
  {
    seq(|ys|, i requires 0 <= i < |ys| => Term(alpha, ys, i))
  }

  /** The weighted sum of the values ys. */
  function WeightedSum(alpha: real, ys: seq<real>): real {
    Sum(Terms(alpha, ys))
  }

  function Values(f: real -> real, xs: seq<real>): seq<real> {
    seq(|xs|, i requires 0 <= i < |xs| => f(xs[i]))
  }

  /** Averaging over a history: what the weights make of any function of a value. */
  type Averaging = (real -> real) -> real

  function AverageOver(alpha: real, xs: seq<real>): Averaging {
    (f: real -> real) => WeightedSum(alpha, Values(f, xs))
  }

  function Identity(): real -> real {
    x => x
  }

  function One(): real -> real {
    x => 1.0
  }

  function SquaredDeviation(c: real): real -> real {
    x => (x - c) * (x - c)
  }

  function Mean(avg: Averaging): real {
    avg(Identity())
  }

  function Variance(avg: Averaging): real {
    avg(SquaredDeviation(Mean(avg)))
  }

  // ----- one more value rescales every weight -----

  lemma WeightShrinks(alpha: real, n: nat, i: nat)
    requires i < n
    ensures Weight(alpha, n + 1, i) == (1.0 - alpha) * Weight(alpha, n, i)
  {
    var b := 1.0 - alpha;
    if i == 0 {
      assert Power(b, n) == b * Power(b, n - 1);
    } else {
      assert Power(b, n - i) == b * Power(b, n - 1 - i);
      assert alpha * (b * Power(b, n - 1 - i)) == b * (alpha * Power(b, n - 1 - i));
    }
  }

  lemma Regroup(b: real, w: real, y: real, w': real)
    requires w' == b * w
    ensures w' * y == b * (w * y)
  {}

  lemma TermShrinks(alpha: real, ys: seq<real>, y: real, i: nat)
    requires i < |ys|
    ensures Term(alpha, ys + [y], i) == (1.0 - alpha) * Term(alpha, ys, i)
  {
    WeightShrinks(alpha, |ys|, i);
    Regroup(1.0 - alpha, Weight(alpha, |ys|, i), ys[i], Weight(alpha, |ys| + 1, i));
  }

  ghost predicate Scaled(b: real, ts: seq<real>, us: seq<real>) {
    |us| == |ts| && forall i :: 0 <= i < |ts| ==> us[i] == b * ts[i]
  }

  lemma {:induction false} SumScales(b: real, ts: seq<real>, us: seq<real>)
    requires Scaled(b, ts, us)
    ensures Sum(us) == b * Sum(ts)
  {
    if ts != [] {
      var k := |ts| - 1;
      SumScales(b, ts[..k], us[..k]);
      Spread(b, Sum(ts[..k]), ts[k]);
    }
  }

  lemma TermsShrink(alpha: real, ys: seq<real>, y: real)
    ensures Scaled(1.0 - alpha, Terms(alpha, ys), Terms(alpha, ys + [y])[..|ys|])
  {
    var ts, us := Terms(alpha, ys), Terms(alpha, ys + [y]);
    forall i | 0 <= i < |ys| ensures us[..|ys|][i] == (1.0 - alpha) * ts[i] {
      TermShrinks(alpha, ys, y, i);
    }
  }

  lemma SumStep(alpha: real, ys: seq<real>, y: real)
    requires ys != []
    ensures WeightedSum(alpha, ys + [y]) == (1.0 - alpha) * WeightedSum(alpha, ys) + alpha * y
  {
    TermsShrink(alpha, ys, y);
    SumScales(1.0 - alpha, Terms(alpha, ys), Terms(alpha, ys + [y])[..|ys|]);
    LastTerm(alpha, ys, y);
  }

  lemma LastTerm(alpha: real, ys: seq<real>, y: real)
    requires ys != []
    ensures Term(alpha, ys + [y], |ys|) == alpha * y
  {
    assert Power(1.0 - alpha, 0) == 1.0;
    assert Weight(alpha, |ys| + 1, |ys|) == alpha;
  }

  /** `next` averages one more value x than `avg` does. */
  ghost predicate OneMore(alpha: real, avg: Averaging, next: Averaging, x: real) {
    forall f: real -> real :: next(f) == (1.0 - alpha) * avg(f) + alpha * f(x)
  }

  /** Averaging one more value mixes it with the average so far. */
  lemma AverageStep(alpha: real, xs: seq<real>, x: real)
    requires xs != []
    ensures OneMore(alpha, AverageOver(alpha, xs), AverageOver(alpha, xs + [x]), x)
  {
    forall f: real -> real
      ensures AverageOver(alpha, xs + [x])(f) == (1.0 - alpha) * AverageOver(alpha, xs)(f) + alpha * f(x)
    {
      SumStep(alpha, Values(f, xs), f(x));
      assert Values(f, xs + [x]) == Values(f, xs) + [f(x)];
    }
  }

  lemma SumOne(alpha: real, y: real)
    ensures WeightedSum(alpha, [y]) == y
  {
    assert Weight(alpha, 1, 0) == 1.0;
    assert Terms(alpha, [y]) == [y];
    assert Sum([y]) == y by { assert [y][..0] == []; }
  }

  lemma AverageOne(alpha: real, x: real)
    ensures forall f: real -> real :: AverageOver(alpha, [x])(f) == f(x)
  {
    forall f: real -> real ensures AverageOver(alpha, [x])(f) == f(x) {
      SumOne(alpha, f(x));
      assert Values(f, [x]) == [f(x)];
    }
  }

  /** The weights of any history sum to one. */
  lemma {:induction false} WeightsSumToOne(alpha: real, xs: seq<real>)
    requires xs != []
    ensures AverageOver(alpha, xs)(One()) == 1.0
    decreases |xs|
  {
    if |xs| == 1 {
      AverageOne(alpha, xs[0]);
      assert xs == [xs[0]];
    } else {
      var init, last := xs[..|xs| - 1], xs[|xs| - 1];
      WeightsSumToOne(alpha, init);
      AverageStep(alpha, init, last);
      OneStays(alpha, AverageOver(alpha, init), AverageOver(alpha, init + [last]), last);
      assert xs == init + [last];
    }
  }

  lemma OneStays(alpha: real, avg: Averaging, next: Averaging, x: real)
    requires OneMore(alpha, avg, next, x) && avg(One()) == 1.0
    ensures next(One()) == 1.0
  {}

  // ----- the code computes the weighted mean and variance -----

  /** Deviations around any centre: the variance plus the squared distance of the mean. */
  ghost predicate Centred(avg: Averaging) {
    CentredAt(avg, Mean(avg), Variance(avg))
  }

  ghost predicate CentredAt(avg: Averaging, m: real, v: real) {
    forall c: real :: avg(SquaredDeviation(c)) == v + (m - c) * (m - c)
  }

  /** The baseline holds the average's mean and variance. */
  ghost predicate Holds(b: Baseline, avg: Averaging) {
    b.mean == Mean(avg) && b.variance == Variance(avg)
  }

  lemma Mixes(alpha: real, avg: Averaging, next: Averaging, x: real, f: real -> real, y: real)
    requires OneMore(alpha, avg, next, x) && y == f(x)
    ensures next(f) == (1.0 - alpha) * avg(f) + alpha * y
  {}

  lemma MeanMixes(alpha: real, avg: Averaging, next: Averaging, x: real)
    requires OneMore(alpha, avg, next, x)
    ensures Mean(next) == (1.0 - alpha) * Mean(avg) + alpha * x
  {
    Mixes(alpha, avg, next, x, Identity(), x);
  }

  // The average of squared deviations around c, before (s) and after (t) one more value, whose
  // own squared deviation is q.
  lemma DeviationMixes(alpha: real, avg: Averaging, next: Averaging, x: real, c: real, m: real, v: real)
    returns (s: real, q: real, t: real)
    requires OneMore(alpha, avg, next, x) && CentredAt(avg, m, v)
    ensures s == v + (m - c) * (m - c) && q == (x - c) * (x - c)
    ensures t == (1.0 - alpha) * s + alpha * q && t == next(SquaredDeviation(c))
  {
    s, q := avg(SquaredDeviation(c)), SquaredDeviation(c)(x);
    t := next(SquaredDeviation(c));
    Mixes(alpha, avg, next, x, SquaredDeviation(c), q);
  }

  lemma Recentred(alpha: real, avg: Averaging, next: Averaging, x: real, m: real, v: real, mix: real, tm: real)
    requires OneMore(alpha, avg, next, x) && CentredAt(avg, m, v)
    requires mix == (1.0 - alpha) * m + alpha * x && tm == next(SquaredDeviation(mix))
    ensures CentredAt(next, mix, tm)
  {
    forall c: real ensures next(SquaredDeviation(c)) == tm + (mix - c) * (mix - c) {
      var sc, qc, tc := DeviationMixes(alpha, avg, next, x, c, m, v);
      var sm, qm, t := DeviationMixes(alpha, avg, next, x, mix, m, v);
      CentresMix(alpha, m, x, mix, c, v, sc, sm, qc, qm, tc, tm);
    }
  }

  lemma CentredStep(alpha: real, avg: Averaging, next: Averaging, x: real)
    requires OneMore(alpha, avg, next, x) && Centred(avg)
    ensures Centred(next)
  {
    MeanMixes(alpha, avg, next, x);
    Recentred(alpha, avg, next, x, Mean(avg), Variance(avg), Mean(next), Variance(next));
  }

  lemma OneValue(avg: Averaging, x: real)
    requires forall f: real -> real :: avg(f) == f(x)
    ensures Holds(Baseline(x, 0.0, 1), avg) && Centred(avg)
  {
    assert Mean(avg) == x;
    assert Variance(avg) == SquaredDeviation(x)(x) == 0.0;
    forall c: real ensures avg(SquaredDeviation(c)) == Variance(avg) + (x - c) * (x - c) {
      assert avg(SquaredDeviation(c)) == SquaredDeviation(c)(x);
    }
  }

  lemma UpdateHolds(alpha: real, b: Baseline, avg: Averaging, next: Averaging, x: real)
    requires OneMore(alpha, avg, next, x) && Centred(avg) && Holds(b, avg) && b.n > 0
    ensures Holds(EwmaUpdate(Some(b), x, alpha), next)
  {
    var m' := Mean(next);
    UpdateIsMix(alpha, b.mean, b.variance, x, m', avg(SquaredDeviation(m')), SquaredDeviation(m')(x), Variance(next));
  }

  ghost predicate Tracked(alpha: real, xs: seq<real>)
    requires xs != []
  {
    && BaselineOf(alpha, xs).n == |xs|
    && Holds(BaselineOf(alpha, xs), AverageOver(alpha, xs))
    && Centred(AverageOver(alpha, xs))
  }

  lemma TrackedOne(alpha: real, x: real)
    ensures Tracked(alpha, [x])
  {
    AverageOne(alpha, x);
    OneValue(AverageOver(alpha, [x]), x);
  }

  lemma TrackedMore(alpha: real, init: seq<real>, x: real)
    requires init != [] && Tracked(alpha, init)
    ensures Tracked(alpha, init + [x])
  {
    AverageStep(alpha, init, x);
    var avg, next := AverageOver(alpha, init), AverageOver(alpha, init + [x]);
    CentredStep(alpha, avg, next, x);
    UpdateHolds(alpha, BaselineOf(alpha, init), avg, next, x);
    assert (init + [x])[..|init|] == init;
  }

  /** After any history, for any alpha, the baseline is exactly the weighted mean and variance. */
  lemma {:induction false} BaselineIsWeighted(alpha: real, xs: seq<real>)
    requires xs != []
    ensures Tracked(alpha, xs)
    decreases |xs|
  {
    if |xs| == 1 {
      TrackedOne(alpha, xs[0]);
      assert xs == [xs[0]];
    } else {
      var init, x := xs[..|xs| - 1], xs[|xs| - 1];
      BaselineIsWeighted(alpha, init);
      TrackedMore(alpha, init, x);
      assert xs == init + [x];
    }
  }

  // The algebra of one step: v is the old variance, s and t are averages of squared deviations
  // before and after the step, around c and around the new mean.
  lemma CentresMix(a: real, m: real, x: real, mix: real, c: real, v: real, sc: real, sm: real,
                   qc: real, qm: real, tc: real, tm: real)
    requires mix == (1.0 - a) * m + a * x
    requires sc == v + (m - c) * (m - c) && sm == v + (m - mix) * (m - mix)
    requires qc == (x - c) * (x - c) && qm == (x - mix) * (x - mix)
    requires tc == (1.0 - a) * sc + a * qc && tm == (1.0 - a) * sm + a * qm
    ensures tc == tm + (mix - c) * (mix - c)
  {
    MixedSquares(a, m, x, mix, c);
    Spread(1.0 - a, v, (m - c) * (m - c));
    Spread(1.0 - a, v, (m - mix) * (m - mix));
  }

  lemma Spread(b: real, v: real, q: real)
    ensures b * (v + q) == b * v + b * q
  {}

  // Two points mixed with shares 1 - a and a: squared distances to c exceed those to the mix by
  // the squared distance of the mix.
  lemma MixedSquares(a: real, m: real, x: real, mix: real, c: real)
    requires mix == (1.0 - a) * m + a * x
    ensures (1.0 - a) * ((m - c) * (m - c)) + a * ((x - c) * (x - c))
         == (1.0 - a) * ((m - mix) * (m - mix)) + a * ((x - mix) * (x - mix)) + (mix - c) * (mix - c)
  {}

  // The algebra of ewmaUpdate.
  lemma UpdateIsMix(a: real, m: real, v: real, x: real, mix: real, s: real, q: real, t: real)
    requires mix == (1.0 - a) * m + a * x && s == v + (m - mix) * (m - mix)
    requires q == (x - mix) * (x - mix) && t == (1.0 - a) * s + a * q
    ensures mix == m + a * (x - m)
    ensures t == (1.0 - a) * (v + a * (x - m) * (x - m))
  {
    var d := x - m;
    assert mix == m + a * d;
    assert (m - mix) * (m - mix) == a * a * d * d;
    assert x - mix == (1.0 - a) * d;
    assert q == (1.0 - a) * (1.0 - a) * d * d;
  }

  // ----- bounds -----

  predicate InRange(xs: seq<real>, lo: real, hi: real) {
    forall i :: 0 <= i < |xs| ==> lo <= xs[i] <= hi
  }

  predicate Bounded(b: Baseline, lo: real, hi: real) {
    lo <= b.mean <= hi && 0.0 <= b.variance <= (hi - b.mean) * (b.mean - lo)
  }

  /** For values in [lo, hi] and alpha in [0, 1], the mean stays in range and the variance is
      between zero and (hi - mean) * (mean - lo). */
  lemma {:induction false} VarianceBounded(alpha: real, xs: seq<real>, lo: real, hi: real)
    requires xs != [] && 0.0 <= alpha <= 1.0 && InRange(xs, lo, hi)
    ensures Bounded(BaselineOf(alpha, xs), lo, hi)
    decreases |xs|
  {
    if |xs| == 1 {
      NonNegative(hi - xs[0], xs[0] - lo);
    } else {
      var init, x := xs[..|xs| - 1], xs[|xs| - 1];
      VarianceBounded(alpha, init, lo, hi);
      UpdateBounded(alpha, BaselineOf(alpha, init), x, lo, hi);
    }
  }

  lemma NonNegative(a: real, b: real)
    requires a >= 0.0 && b >= 0.0
    ensures a * b >= 0.0
  {}

  lemma UpdateBounded(alpha: real, b: Baseline, x: real, lo: real, hi: real)
    requires 0.0 <= alpha <= 1.0 && lo <= x <= hi && b.n > 0 && Bounded(b, lo, hi)
    ensures Bounded(EwmaUpdate(Some(b), x, alpha), lo, hi)
  {
    var next := EwmaUpdate(Some(b), x, alpha);
    BoundStep(alpha, b.mean, b.variance, x, lo, hi, x - b.mean, next.mean, next.variance);
  }

  lemma BoundStep(a: real, m: real, v: real, x: real, lo: real, hi: real, d: real, m': real, v': real)
    requires 0.0 <= a <= 1.0 && lo <= m <= hi && lo <= x <= hi && 0.0 <= v <= (hi - m) * (m - lo)
    requires d == x - m && m' == m + a * d && v' == (1.0 - a) * (v + a * d * d)
    ensures lo <= m' <= hi && 0.0 <= v' <= (hi - m') * (m' - lo)
  {
    MeanKept(a, m, x, lo, hi, d, m');
    VarianceKept(a, v, d, v');
    RoomKept(a, m, v, x, lo, hi, d, m', v');
  }

  lemma MeanKept(a: real, m: real, x: real, lo: real, hi: real, d: real, m': real)
    requires 0.0 <= a <= 1.0 && lo <= m <= hi && lo <= x <= hi && d == x - m && m' == m + a * d
    ensures lo <= m' <= hi
  {
    NonNegative(1.0 - a, m - lo);
    NonNegative(a, x - lo);
    NonNegative(1.0 - a, hi - m);
    NonNegative(a, hi - x);
    assert m' - lo == (1.0 - a) * (m - lo) + a * (x - lo);
    assert hi - m' == (1.0 - a) * (hi - m) + a * (hi - x);
  }

  lemma VarianceKept(a: real, v: real, d: real, v': real)
    requires 0.0 <= a <= 1.0 && v >= 0.0 && v' == (1.0 - a) * (v + a * d * d)
    ensures v' >= 0.0
  {
    SquareNonNegative(d);
    NonNegative(a, d * d);
    assert a * d * d == a * (d * d);
    NonNegative(1.0 - a, v + a * d * d);
  }

  // The room left below the bound is a mix of the old room and the new value's.
  lemma RoomKept(a: real, m: real, v: real, x: real, lo: real, hi: real, d: real, m': real, v': real)
    requires 0.0 <= a <= 1.0 && lo <= x <= hi && v <= (hi - m) * (m - lo)
    requires d == x - m && m' == m + a * d && v' == (1.0 - a) * (v + a * d * d)
    ensures v' <= (hi - m') * (m' - lo)
  {
    NonNegative(hi - x, x - lo);
    var gap, room := (hi - m) * (m - lo) - v, (hi - x) * (x - lo);
    RoomMixes(a, m, v, x, lo, hi, d, m', v', gap, room);
    NonNegative(1.0 - a, gap);
    NonNegative(a, room);
  }

  lemma SquareNonNegative(d: real)
    ensures d * d >= 0.0
  {
    if d < 0.0 { NonNegative(-d, -d); assert d * d == (-d) * (-d); } else { NonNegative(d, d); }
  }

  lemma RoomMixes(a: real, m: real, v: real, x: real, lo: real, hi: real, d: real, m': real, v': real, gap: real, room: real)
    requires d == x - m && m' == m + a * d && v' == (1.0 - a) * (v + a * d * d)
    requires gap == (hi - m) * (m - lo) - v && room == (hi - x) * (x - lo)
    ensures (hi - m') * (m' - lo) - v' == (1.0 - a) * gap + a * room
  {}
}
