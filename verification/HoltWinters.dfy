// Additive triple exponential smoothing (pkg/anomaly/holtwinters.go).

module HoltWinters {
  import opened Stats

  datatype Params = Params(alpha: real, beta: real, gamma: real)

  datatype State = State(level: real, trend: real, seasonals: seq<real>)

  datatype Fit = Fit(inSample: seq<real>, nextForecast: real, level: real, trend: real, seasonals: seq<real>)

  datatype FitResult = Fitted(fit: Fit) | InvalidPeriod | InsufficientData

  // ---- The recursion ----

  // The mean of each phase over the first two cycles.
  function PhaseMeans(ys: seq<real>, p: nat): (r: seq<real>)
    requires 2 * p <= |ys|
    ensures |r| == p && forall i :: 0 <= i < p ==> r[i] == (ys[i] + ys[p + i]) / 2.0
  {
    seq(p, i requires 0 <= i < p => (ys[i] + ys[p + i]) / 2.0)
  }

  function SeedSeasonals(ys: seq<real>, p: nat): (r: seq<real>)
    requires 2 * p <= |ys|
    ensures |r| == p
  {
    Centred(PhaseMeans(ys, p))
  }

  function Slopes(ys: seq<real>, p: nat): (r: seq<real>)
    requires 0 < p && 2 * p <= |ys|
    ensures |r| == p && forall i :: 0 <= i < p ==> r[i] == (ys[p + i] - ys[i]) / p as real
  {
    seq(p, i requires 0 <= i < p => (ys[p + i] - ys[i]) / p as real)
  }

  function Seed(ys: seq<real>, p: nat): (s: State)
    requires 0 < p && 2 * p <= |ys|
    ensures |s.seasonals| == p
  {
    State(Mean(ys[..p]), Sum(Slopes(ys, p)) / p as real, SeedSeasonals(ys, p))
  }

  // The weighted mean of x and y.
  function Smooth(w: real, x: real, y: real): real {
    w * x + (1.0 - w) * y
  }

  function Forecast(s: State, t: nat): real
    requires s.seasonals != []
  {
    s.level + s.trend + s.seasonals[Phase(t, |s.seasonals|)]
  }

  function Next(s: State, t: nat, y: real, par: Params): (r: State)
    requires s.seasonals != []
    ensures |r.seasonals| == |s.seasonals|
  {
    var season := s.seasonals[Phase(t, |s.seasonals|)];
    var level := Smooth(par.alpha, y - season, s.level + s.trend);
    var trend := Smooth(par.beta, level - s.level, s.trend);
    State(level, trend, s.seasonals[Phase(t, |s.seasonals|) := Smooth(par.gamma, y - level, season)])
  }

  // The model fitted through ys[t - 1].
  function StateAt(ys: seq<real>, p: nat, par: Params, t: nat): (s: State)
    requires 0 < p && 2 * p <= |ys| && p <= t <= |ys|
    ensures |s.seasonals| == p
    decreases t
  {
    if t == p then Seed(ys, p) else Next(StateAt(ys, p, par, t - 1), t - 1, ys[t - 1], par)
  }

  function InSampleAt(ys: seq<real>, p: nat, par: Params, t: nat): real
    requires 0 < p && 2 * p <= |ys| && t < |ys|
  {
    if t < p then ys[t] else Forecast(StateAt(ys, p, par, t), t)
  }

  function InSample(ys: seq<real>, p: nat, par: Params): (r: seq<real>)
    requires 0 < p && 2 * p <= |ys|
    ensures |r| == |ys| && forall t :: 0 <= t < |ys| ==> r[t] == InSampleAt(ys, p, par, t)
  {
    seq(|ys|, t requires 0 <= t < |ys| => InSampleAt(ys, p, par, t))
  }

  function FitOf(ys: seq<real>, period: int, par: Params): FitResult {
    if period <= 1 then InvalidPeriod
    else if |ys| < 2 * period then InsufficientData
    else
      var s := StateAt(ys, period, par, |ys|);
      Fitted(Fit(InSample(ys, period, par), Forecast(s, |ys|), s.level, s.trend, s.seasonals))
  }

  // ---- The loops ----

  method InitialAdditiveSeasonals(ys: seq<real>, period: nat) returns (out: array<real>)
    requires 0 < period && 2 * period <= |ys|
    ensures fresh(out) && out[..] == SeedSeasonals(ys, period)
  {
    out := new real[period];
    for i := 0 to period
      invariant forall j :: 0 <= j < i ==> out[j] == PhaseMeans(ys, period)[j]
    {
      var sum := 0.0;
      for c := 0 to 2
        invariant sum == if c == 0 then 0.0 else if c == 1 then ys[i] else ys[i] + ys[period + i]
      {
        sum := sum + ys[c * period + i];
      }
      out[i] := sum / 2.0;
    }
    ghost var raw := PhaseMeans(ys, period);
    assert out[..] == raw;
    var m := ComputeMean(out[..]);
    for i := 0 to period
      invariant forall j :: 0 <= j < i ==> out[j] == raw[j] - m
      invariant forall j :: i <= j < period ==> out[j] == raw[j]
    {
      out[i] := out[i] - m;
    }
    assert out[..] == Centred(raw);
  }

  method InitialTrend(ys: seq<real>, period: nat) returns (trend: real)
    requires 0 < period && 2 * period <= |ys|
    ensures trend == Sum(Slopes(ys, period)) / period as real
  {
    var sum := 0.0;
    ghost var slopes := Slopes(ys, period);
    for i := 0 to period
      invariant sum == Sum(slopes[..i])
    {
      SumTake(slopes, i);
      sum := sum + (ys[period + i] - ys[i]) / period as real;
    }
    assert slopes[..period] == slopes;
    return sum / period as real;
  }

  lemma StateStep(ys: seq<real>, p: nat, par: Params, t: nat)
    requires 0 < p && 2 * p <= |ys| && p <= t < |ys|
    ensures StateAt(ys, p, par, t + 1) == Next(StateAt(ys, p, par, t), t, ys[t], par)
    ensures InSampleAt(ys, p, par, t) == Forecast(StateAt(ys, p, par, t), t)
  {
  }

  method FitHoltWinters(ys: seq<real>, period: int, par: Params) returns (r: FitResult)
    ensures r == FitOf(ys, period, par)
  {
    hide InSampleAt, StateAt, Seed, SeedSeasonals, Slopes, Smooth, Mean, Sum, Phase;
    var n := |ys|;
    if period <= 1 {
      return InvalidPeriod;
    }
    if n < 2 * period {
      return InsufficientData;
    }
    var seasonals := InitialAdditiveSeasonals(ys, period);
    var level := ComputeMean(ys[..period]);
    var trend := InitialTrend(ys, period);
    SeedParts(ys, period, par);
    var inSample := new real[n];
    for i := 0 to period
      invariant forall j :: 0 <= j < i ==> inSample[j] == InSampleAt(ys, period, par, j)
      invariant State(level, trend, seasonals[..]) == StateAt(ys, period, par, period)
    {
      inSample[i] := ys[i];
      FirstPeriod(ys, period, par, i);
    }
    for t := period to n
      invariant State(level, trend, seasonals[..]) == StateAt(ys, period, par, t)
      invariant forall j :: 0 <= j < t ==> inSample[j] == InSampleAt(ys, period, par, j)
    {
      ghost var before := StateAt(ys, period, par, t);
      StateStep(ys, period, par, t);
      var ph := Phase(t, period);
      inSample[t] := level + trend + seasonals[ph];
      var yt := ys[t];
      var prevLevel := level;
      level := Smooth(par.alpha, yt - seasonals[ph], level + trend);
      trend := Smooth(par.beta, level - prevLevel, trend);
      seasonals[ph] := Smooth(par.gamma, yt - level, seasonals[ph]);
      assert seasonals[..] == before.seasonals[ph := seasonals[ph]];
    }
    var next := level + trend + seasonals[Phase(n, period)];
    assert inSample[..] == InSample(ys, period, par);
    return Fitted(Fit(inSample[..], next, level, trend, seasonals[..]));
  }

  lemma SeedParts(ys: seq<real>, p: nat, par: Params)
    requires 0 < p && 2 * p <= |ys|
    ensures StateAt(ys, p, par, p) == State(Mean(ys[..p]), Sum(Slopes(ys, p)) / p as real, SeedSeasonals(ys, p))
  {
  }

  lemma FirstPeriod(ys: seq<real>, p: nat, par: Params, t: nat)
    requires 0 < p && 2 * p <= |ys| && t < p
    ensures InSampleAt(ys, p, par, t) == ys[t]
  {
  }

  // ---- Properties of the seed ----

  // The seed seasonals sum to zero, whatever the data.
  lemma SeedSumsToZero(ys: seq<real>, p: nat)
    requires 0 < p && 2 * p <= |ys|
    ensures Sum(SeedSeasonals(ys, p)) == 0.0
  {
    CentredSumsToZero(PhaseMeans(ys, p));
  }

  // ---- Affine changes of the data ----

  function AffState(k: real, c: real, s: State): State {
    State(Aff(k, c, s.level), Aff(k, 0.0, s.trend), Affine(k, 0.0, s.seasonals))
  }

  lemma SmoothAffine(w: real, k: real, c: real, x: real, y: real)
    ensures Smooth(w, Aff(k, c, x), Aff(k, c, y)) == Aff(k, c, Smooth(w, x, y))
  {
  }

  lemma NextAffine(k: real, c: real, s: State, t: nat, y: real, par: Params)
    requires s.seasonals != []
    ensures Next(AffState(k, c, s), t, Aff(k, c, y), par) == AffState(k, c, Next(s, t, y, par))
  {
    hide Aff, Smooth, Phase;
    var ph := Phase(t, |s.seasonals|);
    var season := s.seasonals[ph];
    var next := Next(s, t, y, par);
    AffDifference(k, c, y, season);
    AffDifference(k, c, s.level, s.trend);
    SmoothAffine(par.alpha, k, c, y - season, s.level + s.trend);
    AffDifference(k, c, next.level, s.level);
    SmoothAffine(par.beta, k, 0.0, next.level - s.level, s.trend);
    AffDifference(k, c, y, next.level);
    SmoothAffine(par.gamma, k, 0.0, y - next.level, season);
    assert Affine(k, 0.0, s.seasonals)[ph := Aff(k, 0.0, next.seasonals[ph])] == Affine(k, 0.0, next.seasonals);
  }

  lemma SlopeAffine(k: real, c: real, x: real, y: real, p: real)
    requires p > 0.0
    ensures (Aff(k, c, x) - Aff(k, c, y)) / p == Aff(k, 0.0, (x - y) / p)
  {
    var q := (x - y) / p;
    assert x - y == q * p;
    AffDifference(k, c, x, y);
    Factor(k, q, 0.0, p);
    Cancel(p, k * q);
  }

  lemma SeedAffine(k: real, c: real, ys: seq<real>, p: nat)
    requires 0 < p && 2 * p <= |ys|
    ensures Seed(Affine(k, c, ys), p) == AffState(k, c, Seed(ys, p))
  {
    hide Aff, Centred, PhaseMeans, Slopes;
    var zs := Affine(k, c, ys);
    assert zs[..p] == Affine(k, c, ys[..p]);
    MeanAffine(k, c, ys[..p]);
    PhaseMeansAffine(k, c, ys, p);
    CentredAffine(k, c, PhaseMeans(ys, p));
    SlopesAffine(k, c, ys, p);
    TrendAffine(k, Slopes(ys, p), p);
  }

  lemma PhaseMeansAffine(k: real, c: real, ys: seq<real>, p: nat)
    requires 2 * p <= |ys|
    ensures PhaseMeans(Affine(k, c, ys), p) == Affine(k, c, PhaseMeans(ys, p))
  {
    hide Aff;
    forall i | 0 <= i < p
      ensures PhaseMeans(Affine(k, c, ys), p)[i] == Affine(k, c, PhaseMeans(ys, p))[i]
    {
      HalfAffine(k, c, ys[i], ys[p + i]);
    }
  }

  lemma SlopesAffine(k: real, c: real, ys: seq<real>, p: nat)
    requires 0 < p && 2 * p <= |ys|
    ensures Slopes(Affine(k, c, ys), p) == Affine(k, 0.0, Slopes(ys, p))
  {
    hide Aff;
    var zs, n := Affine(k, c, ys), p as real;
    forall i | 0 <= i < p
      ensures Slopes(zs, p)[i] == Affine(k, 0.0, Slopes(ys, p))[i]
    {
      SlopeAffine(k, c, ys[p + i], ys[i], n);
      assert zs[p + i] == Aff(k, c, ys[p + i]) && zs[i] == Aff(k, c, ys[i]);
    }
  }

  lemma TrendAffine(k: real, xs: seq<real>, p: nat)
    requires p > 0
    ensures Sum(Affine(k, 0.0, xs)) / p as real == Aff(k, 0.0, Sum(xs) / p as real)
  {
    hide Sum, Affine;
    SumAffine(k, 0.0, xs);
    DividedSum(k, Sum(xs), 0.0 * |xs| as real, p as real);
  }

  lemma DividedSum(k: real, s: real, z: real, n: real)
    requires n > 0.0 && z == 0.0
    ensures (k * s + z) / n == Aff(k, 0.0, s / n)
  {
    var q := s / n;
    assert s == q * n;
    Factor(k, q, 0.0, n);
    Cancel(n, k * q);
  }

  // Fitting k*y + c is fitting y and changing the model accordingly.
  lemma {:induction false} StateAffine(k: real, c: real, ys: seq<real>, p: nat, par: Params, t: nat)
    requires 0 < p && 2 * p <= |ys| && p <= t <= |ys|
    ensures StateAt(Affine(k, c, ys), p, par, t) == AffState(k, c, StateAt(ys, p, par, t))
    decreases t
  {
    hide Aff, Seed, Next;
    if t == p {
      SeedAffine(k, c, ys, p);
    } else {
      StateAffine(k, c, ys, p, par, t - 1);
      NextAffine(k, c, StateAt(ys, p, par, t - 1), t - 1, ys[t - 1], par);
    }
  }

  lemma InSampleAffine(k: real, c: real, ys: seq<real>, p: nat, par: Params, t: nat)
    requires 0 < p && 2 * p <= |ys| && t < |ys|
    ensures InSampleAt(Affine(k, c, ys), p, par, t) == Aff(k, c, InSampleAt(ys, p, par, t))
  {
    hide Aff, StateAt;
    if t >= p {
      StateAffine(k, c, ys, p, par, t);
      ForecastAffine(k, c, StateAt(ys, p, par, t), t);
    }
  }

  lemma ForecastAffine(k: real, c: real, s: State, t: nat)
    requires s.seasonals != []
    ensures Forecast(AffState(k, c, s), t) == Aff(k, c, Forecast(s, t))
  {
    hide Aff, Phase;
    AffDifference(k, c, s.level, s.trend);
    AffDifference(k, c, s.level + s.trend, s.seasonals[Phase(t, |s.seasonals|)]);
  }

  // ---- Causality ----

  // After its seed the fit does not look ahead: two series that agree on
  // their first t entries have the same model there.
  lemma {:induction false} StateCausal(xs: seq<real>, ys: seq<real>, p: nat, par: Params, t: nat, u: nat)
    requires 0 < p && 2 * p <= t && t <= |xs| && t <= |ys| && p <= u <= t
    requires xs[..t] == ys[..t]
    ensures StateAt(xs, p, par, u) == StateAt(ys, p, par, u)
    decreases u
  {
    hide Seed, Next;
    if u == p {
      SeedCausal(xs, ys, p, t);
    } else {
      StateCausal(xs, ys, p, par, t, u - 1);
      assert xs[u - 1] == xs[..t][u - 1] == ys[..t][u - 1] == ys[u - 1];
    }
  }

  lemma SeedCausal(xs: seq<real>, ys: seq<real>, p: nat, t: nat)
    requires 0 < p && 2 * p <= t && t <= |xs| && t <= |ys| && xs[..t] == ys[..t]
    ensures Seed(xs, p) == Seed(ys, p)
  {
    hide Sum, Mean, Centred;
    assert forall i :: 0 <= i < t ==> xs[i] == xs[..t][i] && ys[i] == ys[..t][i];
    assert PhaseMeans(xs, p) == PhaseMeans(ys, p);
    assert Slopes(xs, p) == Slopes(ys, p);
    assert xs[..p] == xs[..t][..p] == ys[..p];
  }

  lemma InSampleCausal(xs: seq<real>, ys: seq<real>, p: nat, par: Params, t: nat, u: nat)
    requires 0 < p && 2 * p <= t && t < |xs| && t < |ys| && u <= t
    requires xs[..t] == ys[..t]
    ensures InSampleAt(xs, p, par, u) == InSampleAt(ys, p, par, u)
  {
    if u < p {
      assert xs[u] == xs[..t][u] == ys[..t][u] == ys[u];
    } else {
      StateCausal(xs, ys, p, par, t, u);
    }
  }

  // The residual of the last point.
  function LastResidual(ys: seq<real>, p: nat, par: Params): real
    requires 0 < p && 2 * p <= |ys|
  {
    ys[|ys| - 1] - InSampleAt(ys, p, par, |ys| - 1)
  }

  // Beyond two periods, moving the last point by d moves its residual by d.
  lemma LastPointShift(ys: seq<real>, p: nat, par: Params, d: real)
    requires 0 < p && 2 * p < |ys|
    ensures var n := |ys|;
            LastResidual(ys[n - 1 := ys[n - 1] + d], p, par) == LastResidual(ys, p, par) + d
  {
    var n := |ys|;
    var zs := ys[n - 1 := ys[n - 1] + d];
    assert zs[..n - 1] == ys[..n - 1];
    InSampleCausal(zs, ys, p, par, n - 1, n - 1);
  }

  // With exactly two periods it does not: the last point is then part of the
  // seed, and here a quarter of the shift is all that shows.
  lemma LastPointLeaksIntoSeed(par: Params, d: real)
    ensures LastResidual([0.0, 0.0, 0.0, 0.0], 2, par) == 0.0
    ensures LastResidual([0.0, 0.0, 0.0, d], 2, par) == d / 4.0
  {
    LeakState(par, d);
    LeakState(par, 0.0);
  }

  lemma LeakState(par: Params, d: real)
    ensures LastResidual([0.0, 0.0, 0.0, d], 2, par) == d / 4.0
  {
    hide Smooth;
    var ys := [0.0, 0.0, 0.0, d];
    LeakSeed(d);
    SmoothSame(par.alpha, d / 4.0);
    SmoothSame(par.beta, d / 4.0);
    var s2 := StateAt(ys, 2, par, 2);
    var s3 := Next(s2, 2, ys[2], par);
    assert StateAt(ys, 2, par, 3) == s3;
    assert s3.level == d / 4.0 && s3.trend == d / 4.0 && s3.seasonals[1] == d / 4.0;
  }

  lemma LeakSeed(d: real)
    ensures Seed([0.0, 0.0, 0.0, d], 2) == State(0.0, d / 4.0, [-d / 4.0, d / 4.0])
  {
    var ys := [0.0, 0.0, 0.0, d];
    var raw, slopes := PhaseMeans(ys, 2), Slopes(ys, 2);
    PairSum(ys[..2]);
    PairSum(raw);
    PairSum(slopes);
    assert SeedSeasonals(ys, 2) == [-d / 4.0, d / 4.0];
  }

  lemma PairSum(xs: seq<real>)
    requires |xs| == 2
    ensures Sum(xs) == xs[0] + xs[1]
  {
    assert xs[..1][..0] == [];
    assert Sum(xs[..1]) == Sum(xs[..1][..0]) + xs[0];
  }

  lemma SmoothSame(w: real, x: real)
    ensures Smooth(w, x, x) == x
  {
  }

  // Moving the last point by d moves its residual by d.
  ghost predicate ShiftShows(ys: seq<real>, p: nat, par: Params, d: real)
    requires 0 < p && 2 * p <= |ys|
  {
    var n := |ys|;
    LastResidual(ys[n - 1 := ys[n - 1] + d], p, par) == LastResidual(ys, p, par) + d
  }

  // Two periods of zeros but for the last value.
  function Spike(p: nat, d: real): (r: seq<real>)
    ensures |r| == 2 * p && forall i :: 0 <= i < 2 * p ==> r[i] == if i == 2 * p - 1 then d else 0.0
  {
    seq(2 * p, i => if i == 2 * p - 1 then d else 0.0)
  }

  lemma {:induction false} SumOfZeros(xs: seq<real>)
    requires forall i :: 0 <= i < |xs| ==> xs[i] == 0.0
    ensures Sum(xs) == 0.0
  {
    if xs != [] {
      SumOfZeros(xs[..|xs| - 1]);
    }
  }

  lemma SumOfLast(xs: seq<real>)
    requires xs != [] && forall i :: 0 <= i < |xs| - 1 ==> xs[i] == 0.0
    ensures Sum(xs) == xs[|xs| - 1]
  {
    SumOfZeros(xs[..|xs| - 1]);
  }

  lemma SpikeSeed(p: nat, d: real)
    requires p > 1
    ensures var s, n := Seed(Spike(p, d), p), p as real;
            s.level == 0.0 && s.trend == d / n / n && s.seasonals[p - 1] == d / 2.0 - d / 2.0 / n
  {
    hide Sum;
    var ys := Spike(p, d);
    SumOfZeros(ys[..p]);
    SumOfLast(PhaseMeans(ys, p));
    SumOfLast(Slopes(ys, p));
  }

  const STILL := Params(0.0, 0.0, 0.0)

  lemma NextStill(s: State, t: nat, y: real)
    requires s.seasonals != []
    ensures Next(s, t, y, STILL) == State(s.level + s.trend, s.trend, s.seasonals)
  {
    hide Phase;
    var ph := Phase(t, |s.seasonals|);
    assert s.seasonals[ph := s.seasonals[ph]] == s.seasonals;
  }

  // With all weights zero the level climbs the seed's trend.
  lemma {:induction false} StillState(ys: seq<real>, p: nat, j: nat)
    requires 0 < p && 2 * p <= |ys| && p + j <= |ys|
    ensures var s := Seed(ys, p);
            StateAt(ys, p, STILL, p + j) == State(Aff(s.trend, s.level, j as real), s.trend, s.seasonals)
    decreases j
  {
    hide Seed, Next, Aff;
    var s := Seed(ys, p);
    if j == 0 {
      AffStart(s.trend, s.level);
    } else {
      StillState(ys, p, j - 1);
      NextStill(StateAt(ys, p, STILL, p + j - 1), p + j - 1, ys[p + j - 1]);
      AffNext(s.trend, s.level, j);
    }
  }

  lemma AffStart(k: real, c: real)
    ensures Aff(k, c, 0.0) == c
  {
  }

  lemma AffNext(k: real, c: real, j: nat)
    requires j > 0
    ensures Aff(k, c, j as real) == Aff(k, c, (j - 1) as real) + k
  {
    assert j as real == (j - 1) as real + 1.0;
  }

  lemma SpikeResidual(p: nat, d: real)
    requires p > 1
    ensures LastResidual(Spike(p, d), p, STILL) == d / 2.0 - d / 2.0 / p as real
  {
    hide Seed, Aff, Phase, StateAt;
    var ys, t := Spike(p, d), 2 * p - 1;
    var s := Seed(ys, p);
    SpikeSeed(p, d);
    StillState(ys, p, p - 1);
    PhasePeriodic(p - 1, p);
    assert p + (p - 1) == t;
    AffNext(s.trend, s.level, p);
    Climb(d, p as real);
  }

  lemma Climb(d: real, n: real)
    requires n > 0.0
    ensures Aff(d / n / n, 0.0, n) == d / n && d / n == d / 2.0 / n + d / 2.0 / n
  {
    var q := d / n;
    assert q / n * n == q;
    var h := d / 2.0 / n;
    assert d / 2.0 == h * n;
    assert d == (h + h) * n;
    Cancel(n, h + h);
  }

  // For every period and length, the last residual follows the last point on
  // all series and for all weights exactly if there is more than the seed.
  lemma LastPointShiftIff(p: nat, n: nat)
    requires 1 < p && 2 * p <= n
    ensures (forall ys: seq<real>, par: Params, d: real :: |ys| == n ==> ShiftShows(ys, p, par, d)) <==> n > 2 * p
  {
    hide LastResidual;
    if n > 2 * p {
      forall ys: seq<real>, par: Params, d: real | |ys| == n ensures ShiftShows(ys, p, par, d) {
        LastPointShift(ys, p, par, d);
      }
    } else {
      SpikeResidual(p, 0.0);
      SpikeResidual(p, 1.0);
      var ys := Spike(p, 0.0);
      assert ys[n - 1 := ys[n - 1] + 1.0] == Spike(p, 1.0);
      assert 0.0 / 2.0 / p as real == 0.0 && 1.0 / 2.0 / p as real >= 0.0;
      assert !ShiftShows(ys, p, STILL, 1.0);
    }
  }

  // ---- Exact seasonal series ----

  // ys repeats the zero-sum pattern s around the level a.
  predicate Seasonal(ys: seq<real>, a: real, s: seq<real>) {
    s != [] && forall i :: 0 <= i < |ys| ==> ys[i] == a + s[Phase(i, |s|)]
  }

  lemma SeasonalSeed(ys: seq<real>, a: real, s: seq<real>)
    requires Seasonal(ys, a, s) && 2 * |s| <= |ys| && Sum(s) == 0.0
    ensures Seed(ys, |s|) == State(a, 0.0, s)
  {
    hide Phase, PhaseMeans, Slopes, Centred, Aff, Mean, Sum;
    var p := |s|;
    FirstCycle(ys, a, s);
    MeanAffine(1.0, a, s);
    ZeroSum(s);
    AffineZero(a, s);
    SecondCycle(ys, a, s);
    CentredAffine(1.0, a, s);
    TrendAffine(0.0, s, p);
  }

  lemma AffineZero(a: real, s: seq<real>)
    requires s != []
    ensures Aff(1.0, a, 0.0) == a && Aff(0.0, 0.0, Sum(s) / |s| as real) == 0.0
    ensures Affine(1.0, 0.0, s) == s
  {
    NothingTimes(Sum(s) / |s| as real);
  }

  lemma NothingTimes(x: real)
    ensures Aff(0.0, 0.0, x) == 0.0
  {
  }

  lemma FirstCycle(ys: seq<real>, a: real, s: seq<real>)
    requires Seasonal(ys, a, s) && 2 * |s| <= |ys|
    ensures ys[..|s|] == Affine(1.0, a, s)
  {
    hide Phase;
    forall i | 0 <= i < |s| ensures ys[i] == Aff(1.0, a, s[i]) { NextCycle(i, |s|); }
  }

  lemma SecondCycle(ys: seq<real>, a: real, s: seq<real>)
    requires Seasonal(ys, a, s) && 2 * |s| <= |ys|
    ensures PhaseMeans(ys, |s|) == Affine(1.0, a, s)
    ensures Slopes(ys, |s|) == Affine(0.0, 0.0, s)
  {
    hide Phase, Aff;
    var p := |s|;
    forall i | 0 <= i < p
      ensures PhaseMeans(ys, p)[i] == Affine(1.0, a, s)[i]
      ensures Slopes(ys, p)[i] == Affine(0.0, 0.0, s)[i]
    {
      NextCycle(i, p);
      SameTwice(ys[i], ys[p + i], a, s[i], p as real);
    }
  }

  lemma SameTwice(x: real, y: real, a: real, z: real, p: real)
    requires x == a + z && y == a + z && p > 0.0
    ensures (x + y) / 2.0 == Aff(1.0, a, z)
    ensures (y - x) / p == Aff(0.0, 0.0, z)
  {
  }

  lemma NextCycle(i: nat, p: nat)
    requires i < p
    ensures Phase(i, p) == i && Phase(p + i, p) == i
  {
    PhasePeriodic(i, p);
  }

  lemma NextSeasonal(a: real, s: seq<real>, t: nat, par: Params)
    requires s != []
    ensures Next(State(a, 0.0, s), t, a + s[Phase(t, |s|)], par) == State(a, 0.0, s)
  {
    hide Smooth, Phase;
    var x := s[Phase(t, |s|)];
    SmoothSame(par.alpha, a);
    SmoothSame(par.beta, 0.0);
    SmoothSame(par.gamma, x);
    assert s[Phase(t, |s|) := x] == s;
  }

  // On such a series the model never moves.
  lemma {:induction false} SeasonalFixedPoint(ys: seq<real>, a: real, s: seq<real>, par: Params, t: nat)
    requires Seasonal(ys, a, s) && 2 * |s| <= |ys| && Sum(s) == 0.0 && |s| <= t <= |ys|
    ensures StateAt(ys, |s|, par, t) == State(a, 0.0, s)
    decreases t
  {
    hide Next, Seed, Phase;
    if t == |s| {
      SeasonalSeed(ys, a, s);
    } else {
      SeasonalFixedPoint(ys, a, s, par, t - 1);
      NextSeasonal(a, s, t - 1, par);
    }
  }

  lemma SeasonalInSample(ys: seq<real>, a: real, s: seq<real>, par: Params, t: nat)
    requires Seasonal(ys, a, s) && 2 * |s| <= |ys| && Sum(s) == 0.0 && t < |ys|
    ensures InSampleAt(ys, |s|, par, t) == ys[t]
  {
    if t >= |s| {
      SeasonalFixedPoint(ys, a, s, par, t);
    }
  }

  // ---- What each weight does ----

  lemma Correction(w: real, x: real, y: real)
    ensures Smooth(w, x, y) == y + w * (x - y)
  {
  }

  lemma SmoothedTrend(w: real, trend: real, move: real)
    ensures Smooth(w, trend + move, trend) == trend + w * move
  {
  }

  lemma SmoothedSeason(w: real, e: real, move: real, season: real)
    ensures Smooth(w, season + e - move, season) == season + w * (e - move)
  {
  }

  // One step corrects the model by the error e of its forecast: the level by
  // the share alpha of e, the trend by the share beta of what the level was
  // corrected by, and the season of this phase by the share gamma of what the
  // level left over. The other phases stay.
  lemma ErrorCorrection(ys: seq<real>, p: nat, par: Params, t: nat)
    requires 0 < p && 2 * p <= |ys| && p <= t < |ys|
    ensures var (s, s') := (StateAt(ys, p, par, t), StateAt(ys, p, par, t + 1));
            var e := ys[t] - InSampleAt(ys, p, par, t);
            && InSampleAt(ys, p, par, t) == s.level + s.trend + s.seasonals[t % p]
            && s'.level == s.level + s.trend + par.alpha * e
            && s'.trend == s.trend + par.beta * (par.alpha * e)
            && s'.seasonals[t % p] == s.seasonals[t % p] + par.gamma * (e - par.alpha * e)
            && forall i :: 0 <= i < p && i != t % p ==> s'.seasonals[i] == s.seasonals[i]
  {
    hide Smooth, StateAt;
    StateStep(ys, p, par, t);
    var s := StateAt(ys, p, par, t);
    var season := s.seasonals[t % p];
    var e := ys[t] - Forecast(s, t);
    var move := par.alpha * e;
    Correction(par.alpha, ys[t] - season, s.level + s.trend);
    assert ys[t] - season - (s.level + s.trend) == e;
    var level := Smooth(par.alpha, ys[t] - season, s.level + s.trend);
    assert level == s.level + s.trend + move;
    assert level - s.level == s.trend + move;
    SmoothedTrend(par.beta, s.trend, move);
    assert ys[t] - level == season + e - move;
    SmoothedSeason(par.gamma, e, move, season);
  }

  // The model the steps start from: the level is the mean of the first cycle,
  // the trend the rise of the cycle mean per step, and the seasonals differ
  // from each other as the sums of their phases over both cycles do, by half.
  lemma SeedMeans(ys: seq<real>, p: nat, par: Params)
    requires 0 < p && 2 * p <= |ys|
    ensures var s, n := StateAt(ys, p, par, p), p as real;
            && s.level * n == Sum(ys[..p])
            && s.trend * n * n == Sum(ys[p..2 * p]) - Sum(ys[..p])
            && Sum(s.seasonals) == 0.0
            && forall i, j :: 0 <= i < p && 0 <= j < p ==>
                 2.0 * (s.seasonals[i] - s.seasonals[j]) == (ys[i] + ys[p + i]) - (ys[j] + ys[p + j])
  {
    hide Sum, Centred;
    SeedSumsToZero(ys, p);
    SeedTrend(ys, p);
  }

  lemma SeedTrend(ys: seq<real>, p: nat)
    requires 0 < p && 2 * p <= |ys|
    ensures Seed(ys, p).trend * p as real * p as real == Sum(ys[p..2 * p]) - Sum(ys[..p])
  {
    hide Sum, Slopes, Seed;
    var n, total := p as real, Sum(Slopes(ys, p));
    assert total * n == Sum(ys[p..2 * p]) - Sum(ys[..p]) by {
      SumOfSlopes(ys, p, p);
      assert Slopes(ys, p)[..p] == Slopes(ys, p);
      assert ys[p..p + p] == ys[p..2 * p];
    }
    SeedTrendIs(ys, p);
    TwiceCancelled(Seed(ys, p).trend, total, n);
  }

  lemma SeedTrendIs(ys: seq<real>, p: nat)
    requires 0 < p && 2 * p <= |ys|
    ensures Seed(ys, p).trend == Sum(Slopes(ys, p)) / p as real
  {
    hide Sum, Slopes, SeedSeasonals, Mean;
  }

  lemma {:induction false} SumOfSlopes(ys: seq<real>, p: nat, m: nat)
    requires 0 < p && 2 * p <= |ys| && m <= p
    ensures Sum(Slopes(ys, p)[..m]) * p as real == Sum(ys[p..p + m]) - Sum(ys[..m])
  {
    hide Sum, Slopes;
    if m == 0 {
      SumOfZeros([]);
      assert Slopes(ys, p)[..m] == [] && ys[p..p + m] == [] && ys[..m] == [];
    } else {
      SumOfSlopes(ys, p, m - 1);
      SumTake(Slopes(ys, p), m - 1);
      SlopeAt(ys, p, m - 1);
      SumTake(ys, m - 1);
      assert ys[p..p + m] == ys[p..p + m - 1] + [ys[p + m - 1]];
      SumSnoc(ys[p..p + m - 1], ys[p + m - 1]);
      Distributed(Sum(Slopes(ys, p)[..m - 1]), ys[p + m - 1] - ys[m - 1], p as real);
    }
  }

  lemma TwiceCancelled(trend: real, total: real, n: real)
    requires n > 0.0 && trend == total / n
    ensures trend * n * n == total * n
  {
    assert trend * n == total;
  }

  lemma SlopeAt(ys: seq<real>, p: nat, i: nat)
    requires i < p && 2 * p <= |ys|
    ensures Slopes(ys, p)[i] == (ys[p + i] - ys[i]) / p as real
  {
  }

  lemma Distributed(s: real, d: real, n: real)
    requires n > 0.0
    ensures (s + d / n) * n == s * n + d
  {
    var q := d / n;
    assert d == q * n;
  }

  // A fit reports the model behind its last value, and as its forecast what
  // the fit of any series going on from there has in sample.
  lemma FitReports(ys: seq<real>, y: real, p: nat, par: Params)
    requires 1 < p && 2 * p <= |ys|
    ensures FitOf(ys, p, par).Fitted?
    ensures var f, s := FitOf(ys, p, par).fit, StateAt(ys, p, par, |ys|);
            && f.inSample[..p] == ys[..p]
            && f.level == s.level && f.trend == s.trend && f.seasonals == s.seasonals
            && f.nextForecast == f.level + f.trend + f.seasonals[|ys| % p]
            && f.nextForecast == InSampleAt(ys + [y], p, par, |ys|)
            && FitOf(ys + [y], p, par).Fitted?
            && FitOf(ys + [y], p, par).fit.inSample == f.inSample + [f.nextForecast]
  {
    hide StateAt;
    var n, zs := |ys|, ys + [y];
    assert zs[..n] == ys[..n] == ys;
    StateCausal(zs, ys, p, par, n, n);
    forall t | 0 <= t < n ensures InSampleAt(zs, p, par, t) == InSampleAt(ys, p, par, t) {
      if t >= p {
        StateCausal(zs, ys, p, par, n, t);
      }
    }
  }
}
