// The anomaly detector: choose a model, measure the latest residual in MADs,
// apply the calendar (pkg/anomaly/detector.go, types.go).

module Detector {
  import opened Stats
  import opened SuppressionCalendar
  import D = Decompose
  import J = DecomposeSpike
  import H = HoltWinters

  datatype Method = HoltWintersFit | SeasonalDecompose | InsufficientData

  datatype Severity = SeverityNone | SeverityWatch | SeverityAnomaly | SeverityCritical

  datatype Point = Point(at: int, value: real)

  datatype Config = Config(
    period: int, alpha: real, beta: real, gamma: real,
    watch: real, anomaly: real, critical: real,
    minSamples: int, calendar: seq<Window>)

  datatype Verdict = Verdict(
    chosen: Method, severity: Severity, suppressed: bool, latest: Point,
    forecast: real, residual: real, mad: real, madUnits: real)

  datatype DetectResult = Detected(verdict: Verdict) | EmptySeries | SeriesNotSorted

  // ---- Configuration and choices ----

  function OrElse(x: real, default: real): real {
    if x == 0.0 then default else x
  }

  function Defaults(cfg: Config): (r: Config)
    ensures r.period > 1
  {
    var period := if cfg.period <= 1 then 24 else cfg.period;
    Config(period, OrElse(cfg.alpha, 0.3), OrElse(cfg.beta, 0.1), OrElse(cfg.gamma, 0.1),
           OrElse(cfg.watch, 3.0), OrElse(cfg.anomaly, 5.0), OrElse(cfg.critical, 8.0),
           if cfg.minSamples == 0 then 3 * period else cfg.minSamples, cfg.calendar)
  }

  function ChooseMethod(n: nat, period: int, minSamples: int): Method {
    if n < minSamples then InsufficientData
    else if n < 2 * period then InsufficientData
    else if n < 4 * period then HoltWintersFit
    else SeasonalDecompose
  }

  function ClassifySeverity(madUnits: real, cfg: Config): Severity {
    if madUnits == 0.0 then SeverityNone
    else if madUnits >= cfg.critical then SeverityCritical
    else if madUnits >= cfg.anomaly then SeverityAnomaly
    else if madUnits >= cfg.watch then SeverityWatch
    else SeverityNone
  }

  function Capped(s: Severity, suppressed: bool): Severity {
    if suppressed && (s == SeverityAnomaly || s == SeverityCritical) then SeverityWatch else s
  }

  predicate IsSortedAsc(s: seq<Point>) {
    forall i :: 1 <= i < |s| ==> s[i - 1].at <= s[i].at
  }

  // ---- What Detect computes ----

  function Values(s: seq<Point>): (ys: seq<real>)
    ensures |ys| == |s| && forall i :: 0 <= i < |s| ==> ys[i] == s[i].value
  {
    seq(|s|, i requires 0 <= i < |s| => s[i].value)
  }

  function ParamsOf(cfg: Config): H.Params {
    H.Params(cfg.alpha, cfg.beta, cfg.gamma)
  }

  // The model's expectation for the last entry.
  function ForecastBy(m: Method, ys: seq<real>, cfg: Config): real
    requires cfg.period > 1 && 2 * cfg.period <= |ys|
  {
    var n, p := |ys|, cfg.period;
    if m.HoltWintersFit? then H.InSampleAt(ys, p, ParamsOf(cfg), n - 1)
    else D.TrendAt(ys, p, n - p / 2 - 1) + D.PeriodMeans(ys, p)[Phase(n - 1, p)]
  }

  function HoltWintersResiduals(ys: seq<real>, p: nat, par: H.Params): (r: seq<real>)
    requires 1 < p && 2 * p <= |ys|
    ensures |r| == |ys| - p
    ensures forall i :: 0 <= i < |r| ==> r[i] == ys[p + i] - H.InSampleAt(ys, p, par, p + i)
  {
    seq(|ys| - p, i requires 0 <= i < |ys| - p => ys[p + i] - H.InSampleAt(ys, p, par, p + i))
  }

  function DecomposeResiduals(ys: seq<real>, p: nat): (r: seq<real>)
    requires 1 < p && 2 * p <= |ys|
    ensures |r| == |ys| - 2 * (p / 2)
    ensures forall i :: 0 <= i < |r| ==> r[i] == D.ResidualAt(ys, p, p / 2 + i)
  {
    seq(|ys| - 2 * (p / 2), i requires 0 <= i < |ys| - 2 * (p / 2) => D.ResidualAt(ys, p, p / 2 + i))
  }

  // The residuals whose spread is the yardstick.
  function ResidualsBy(m: Method, ys: seq<real>, cfg: Config): seq<real>
    requires cfg.period > 1 && 2 * cfg.period <= |ys|
  {
    if m.HoltWintersFit? then HoltWintersResiduals(ys, cfg.period, ParamsOf(cfg))
    else DecomposeResiduals(ys, cfg.period)
  }

  function Units(residual: real, mad: real): real {
    if mad > 0.0 then Abs(residual) / mad else 0.0
  }

  function Judge(m: Method, latest: Point, forecast: real, mad: real, cfg: Config): Verdict {
    var residual := latest.value - forecast;
    var units := Units(residual, mad);
    var suppressed := Covered(cfg.calendar, latest.at);
    Verdict(m, Capped(ClassifySeverity(units, cfg), suppressed), suppressed, latest, forecast, residual, mad, units)
  }

  function VerdictOf(series: seq<Point>, cfg: Config): Verdict
    requires series != [] && cfg.period > 1
  {
    var ys, latest := Values(series), series[|series| - 1];
    var m := ChooseMethod(|ys|, cfg.period, cfg.minSamples);
    if m.InsufficientData? then Verdict(m, SeverityNone, false, latest, latest.value, 0.0, 0.0, 0.0)
    else Judge(m, latest, ForecastBy(m, ys, cfg), MAD(ResidualsBy(m, ys, cfg)), cfg)
  }

  function DetectOf(series: seq<Point>, cfg: Config): DetectResult {
    if series == [] then EmptySeries
    else if !IsSortedAsc(series) then SeriesNotSorted
    else Detected(VerdictOf(series, Defaults(cfg)))
  }

  // ---- The pipeline ----

  method CheckSortedAsc(s: seq<Point>) returns (ok: bool)
    ensures ok <==> forall i, j :: 0 <= i < j < |s| ==> s[i].at <= s[j].at
    ensures ok == IsSortedAsc(s)
  {
    var i := 1;
    while i < |s|
      invariant 1 <= i
      invariant forall k, l :: 0 <= k < l < i && l < |s| ==> s[k].at <= s[l].at
    {
      if s[i].at < s[i - 1].at {
        return false;
      }
      i := i + 1;
    }
    return true;
  }

  // Where the chooser sends a series to Holt-Winters, the fit cannot fail.
  lemma FitSucceeds(ys: seq<real>, p: nat, par: H.Params)
    requires 1 < p && 2 * p <= |ys|
    ensures H.FitOf(ys, p, par).Fitted? && H.FitOf(ys, p, par).fit.inSample == H.InSample(ys, p, par)
  {
    hide H.InSample, H.StateAt;
  }

  method HoltWintersStep(ys: seq<real>, cfg: Config) returns (forecast: real, mad: real)
    requires cfg.period > 1 && 2 * cfg.period <= |ys|
    ensures forecast == ForecastBy(HoltWintersFit, ys, cfg)
    ensures mad == MAD(ResidualsBy(HoltWintersFit, ys, cfg))
  {
    hide H.InSampleAt, H.FitOf, H.InSample, MAD;
    var n, p := |ys|, cfg.period;
    var r := H.FitHoltWinters(ys, p, ParamsOf(cfg));
    FitSucceeds(ys, p, ParamsOf(cfg));
    var fit := r.fit;
    ghost var want := HoltWintersResiduals(ys, p, ParamsOf(cfg));
    var resid: seq<real> := [];
    for i := p to n
      invariant resid == want[..i - p]
    {
      assert want[..i - p + 1] == want[..i - p] + [want[i - p]];
      resid := resid + [ys[i] - fit.inSample[i]];
    }
    assert resid == want;
    mad := ComputeMAD(resid);
    forecast := fit.inSample[n - 1];
  }

  method DecomposeStep(ys: seq<real>, cfg: Config) returns (forecast: real, mad: real)
    requires cfg.period > 1 && 2 * cfg.period <= |ys|
    ensures forecast == ForecastBy(SeasonalDecompose, ys, cfg)
    ensures mad == MAD(ResidualsBy(SeasonalDecompose, ys, cfg))
  {
    hide D.TrendAt, D.PeriodMeans, D.ResidualAt, Phase, MAD;
    var n, p := |ys|, cfg.period;
    var r := D.DecomposeSeries(ys, p);
    var dec := r.d;
    var half := p / 2;
    ghost var want := DecomposeResiduals(ys, p);
    var resid: seq<real> := [];
    for i := half to n - half
      invariant resid == want[..i - half]
    {
      assert want[..i - half + 1] == want[..i - half] + [want[i - half]];
      resid := resid + [dec.residual[i]];
    }
    assert resid == want;
    mad := ComputeMAD(resid);
    forecast := dec.trend[n - half - 1] + dec.season[n - 1];
  }

  method Detect(series: seq<Point>, config: Config) returns (r: DetectResult)
    ensures r == DetectOf(series, config)
  {
    hide ForecastBy, ResidualsBy, MAD, ClassifySeverity;
    if |series| == 0 {
      return EmptySeries;
    }
    var ok := CheckSortedAsc(series);
    if !ok {
      return SeriesNotSorted;
    }
    var cfg := Defaults(config);
    var values := new real[|series|];
    for i := 0 to |series|
      invariant forall k :: 0 <= k < i ==> values[k] == series[k].value
    {
      values[i] := series[i].value;
    }
    assert values[..] == Values(series);
    var latest := series[|series| - 1];
    var m := ChooseMethod(|series|, cfg.period, cfg.minSamples);
    if m == InsufficientData {
      return Detected(Verdict(m, SeverityNone, false, latest, latest.value, 0.0, 0.0, 0.0));
    }
    var forecast, mad;
    if m == HoltWintersFit {
      forecast, mad := HoltWintersStep(values[..], cfg);
    } else {
      forecast, mad := DecomposeStep(values[..], cfg);
    }
    var residual := latest.value - forecast;
    var units := 0.0;
    if mad > 0.0 {
      units := Abs(residual) / mad;
    }
    var severity := ClassifySeverity(units, cfg);
    var suppressed := false;
    if |cfg.calendar| > 0 {
      var reason;
      suppressed, reason := Suppression(cfg.calendar, latest.at);
      if suppressed && (severity == SeverityAnomaly || severity == SeverityCritical) {
        severity := SeverityWatch;
      }
    }
    return Detected(Verdict(m, severity, suppressed, latest, forecast, residual, mad, units));
  }

  // ---- Affine invariance ----

  function AffinePoint(k: real, c: real, pt: Point): Point {
    Point(pt.at, Aff(k, c, pt.value))
  }

  function AffineSeries(k: real, c: real, s: seq<Point>): (r: seq<Point>)
    ensures |r| == |s| && forall i :: 0 <= i < |s| ==> r[i] == AffinePoint(k, c, s[i])
  {
    seq(|s|, i requires 0 <= i < |s| => AffinePoint(k, c, s[i]))
  }

  // The same judgement in the other unit of measurement.
  function AffineVerdict(k: real, c: real, v: Verdict): Verdict {
    v.(latest := AffinePoint(k, c, v.latest),
       forecast := Aff(k, c, v.forecast),
       residual := Aff(k, 0.0, v.residual),
       mad := Aff(Abs(k), 0.0, v.mad))
  }

  function AffineResult(k: real, c: real, r: DetectResult): DetectResult {
    if r.Detected? then Detected(AffineVerdict(k, c, r.verdict)) else r
  }

  lemma ForecastAffine(k: real, c: real, m: Method, ys: seq<real>, cfg: Config)
    requires cfg.period > 1 && 2 * cfg.period <= |ys|
    ensures ForecastBy(m, Affine(k, c, ys), cfg) == Aff(k, c, ForecastBy(m, ys, cfg))
  {
    hide Aff, H.InSampleAt, D.TrendAt, D.PeriodMeans, Phase;
    var n, p := |ys|, cfg.period;
    if m.HoltWintersFit? {
      H.InSampleAffine(k, c, ys, p, ParamsOf(cfg), n - 1);
    } else {
      D.TrendAffineAt(k, c, ys, p, n - p / 2 - 1);
      D.PeriodMeansAffine(k, c, ys, p);
      AffDifference(k, c, D.TrendAt(ys, p, n - p / 2 - 1), D.PeriodMeans(ys, p)[Phase(n - 1, p)]);
    }
  }

  lemma ResidualsAffine(k: real, c: real, m: Method, ys: seq<real>, cfg: Config)
    requires cfg.period > 1 && 2 * cfg.period <= |ys|
    ensures ResidualsBy(m, Affine(k, c, ys), cfg) == Affine(k, 0.0, ResidualsBy(m, ys, cfg))
  {
    hide Aff, H.InSampleAt, D.ResidualAt;
    var p, zs := cfg.period, Affine(k, c, ys);
    var was, now := ResidualsBy(m, ys, cfg), ResidualsBy(m, zs, cfg);
    forall i | 0 <= i < |was| ensures now[i] == Affine(k, 0.0, was)[i] {
      if m.HoltWintersFit? {
        H.InSampleAffine(k, c, ys, p, ParamsOf(cfg), p + i);
        AffDifference(k, c, ys[p + i], H.InSampleAt(ys, p, ParamsOf(cfg), p + i));
      } else {
        D.ResidualAffine(k, c, ys, p, p / 2 + i);
      }
    }
  }

  lemma UnitsAffine(k: real, residual: real, mad: real)
    requires k != 0.0
    ensures Units(Aff(k, 0.0, residual), Aff(Abs(k), 0.0, mad)) == Units(residual, mad)
  {
    assert Abs(k * residual) == Abs(k) * Abs(residual);
    if mad > 0.0 {
      assert Abs(k) * mad > 0.0;
      SameRatio(Abs(k), Abs(residual), mad);
    } else {
      assert Abs(k) * mad <= 0.0;
    }
  }

  lemma SameRatio(k: real, x: real, y: real)
    requires k > 0.0 && y > 0.0 && k * y > 0.0
    ensures (k * x) / (k * y) == x / y
  {
    var q := x / y;
    assert x == q * y;
    assert k * x == q * (k * y);
  }

  lemma JudgeAffine(k: real, c: real, m: Method, latest: Point, forecast: real, mad: real, cfg: Config)
    requires k != 0.0
    ensures Judge(m, AffinePoint(k, c, latest), Aff(k, c, forecast), Aff(Abs(k), 0.0, mad), cfg)
         == AffineVerdict(k, c, Judge(m, latest, forecast, mad, cfg))
  {
    hide Aff, Abs, Units, ClassifySeverity, Covered;
    AffDifference(k, c, latest.value, forecast);
    UnitsAffine(k, latest.value - forecast, mad);
  }

  // Changing the unit and origin of the measurements changes nothing about
  // the judgement.
  lemma DetectAffine(k: real, c: real, series: seq<Point>, cfg: Config)
    requires k != 0.0
    ensures DetectOf(AffineSeries(k, c, series), cfg) == AffineResult(k, c, DetectOf(series, cfg))
  {
    hide Aff, ForecastBy, ResidualsBy, MAD, Judge, Defaults, Abs;
    var zs := AffineSeries(k, c, series);
    if series != [] {
      assert IsSortedAsc(zs) <==> IsSortedAsc(series) by {
        assert forall i :: 0 <= i < |series| ==> zs[i].at == series[i].at;
      }
      VerdictAffine(k, c, series, Defaults(cfg));
    }
  }

  lemma VerdictAffine(k: real, c: real, series: seq<Point>, cfg: Config)
    requires k != 0.0 && series != [] && cfg.period > 1
    ensures VerdictOf(AffineSeries(k, c, series), cfg) == AffineVerdict(k, c, VerdictOf(series, cfg))
  {
    hide Aff, ForecastBy, ResidualsBy, MAD, Judge, Abs;
    var ys, latest := Values(series), series[|series| - 1];
    assert Values(AffineSeries(k, c, series)) == Affine(k, c, ys);
    var m := ChooseMethod(|ys|, cfg.period, cfg.minSamples);
    if m.InsufficientData? {
      D.LinearZero(k);
      D.LinearZero(Abs(k));
    } else {
      var rs := ResidualsBy(m, ys, cfg);
      ForecastAffine(k, c, m, ys, cfg);
      ResidualsAffine(k, c, m, ys, cfg);
      MADAffine(k, 0.0, rs);
      AffZero(Abs(k), MAD(rs));
      JudgeAffine(k, c, m, latest, ForecastBy(m, ys, cfg), MAD(rs), cfg);
      assert MAD(Affine(k, 0.0, rs)) == Aff(Abs(k), 0.0, MAD(rs));
    }
  }

  // ---- Series the models fit exactly ----

  lemma NoSpreadNoAlarm(m: Method, latest: Point, forecast: real, cfg: Config)
    ensures Judge(m, latest, forecast, 0.0, cfg).severity == SeverityNone
    ensures Judge(m, latest, forecast, 0.0, cfg).madUnits == 0.0
  {
  }

  // A level plus a zero-sum pattern of the configured period is not an
  // anomaly: nothing is left over, by either model.
  lemma SeasonalSeriesIsQuiet(series: seq<Point>, a: real, s: seq<real>, config: Config)
    requires series != [] && IsSortedAsc(series)
    requires |s| == Defaults(config).period && Sum(s) == 0.0 && D.Pattern(Values(series), a, 0.0, s)
    ensures var v := DetectOf(series, config).verdict;
            v.residual == 0.0 && v.mad == 0.0 && v.severity == SeverityNone && v.forecast == v.latest.value
  {
    hide H.InSampleAt, D.TrendAt, D.PeriodMeans, D.ResidualAt, Phase, Sum, MAD, D.LineAt;
    var cfg, ys := Defaults(config), Values(series);
    var n, p := |ys|, cfg.period;
    var m := ChooseMethod(n, p, cfg.minSamples);
    if !m.InsufficientData? {
      FlatPattern(ys, a, s);
      if m.HoltWintersFit? {
        QuietHoltWinters(ys, a, s, cfg);
      } else {
        QuietDecompose(ys, a, 0.0, s, cfg);
        LevelLine(a, n - p / 2 - 1);
        LevelLine(a, n - 1);
      }
      NoSpreadNoAlarm(m, series[n - 1], ForecastBy(m, ys, cfg), cfg);
    }
  }

  lemma LevelLine(a: real, i: nat)
    ensures D.LineAt(a, 0.0, i) == a
  {
  }

  lemma FlatPattern(ys: seq<real>, a: real, s: seq<real>)
    requires D.Pattern(ys, a, 0.0, s)
    ensures H.Seasonal(ys, a, s)
  {
    hide Phase, D.LineAt;
    forall i | 0 <= i < |ys| ensures ys[i] == a + s[Phase(i, |s|)] {
      LevelLine(a, i);
    }
  }

  lemma QuietHoltWinters(ys: seq<real>, a: real, s: seq<real>, cfg: Config)
    requires H.Seasonal(ys, a, s) && Sum(s) == 0.0
    requires 1 < |s| == cfg.period && 2 * |s| <= |ys|
    ensures ForecastBy(HoltWintersFit, ys, cfg) == ys[|ys| - 1]
    ensures MAD(ResidualsBy(HoltWintersFit, ys, cfg)) == 0.0
  {
    hide H.InSampleAt, H.Seasonal, Sum, MAD;
    forall t: nat | t < |ys| ensures H.InSampleAt(ys, |s|, ParamsOf(cfg), t) == ys[t] {
      H.SeasonalInSample(ys, a, s, ParamsOf(cfg), t);
    }
    MADOfZeros(ResidualsBy(HoltWintersFit, ys, cfg));
  }

  lemma QuietDecompose(ys: seq<real>, a: real, b: real, s: seq<real>, cfg: Config)
    requires D.Pattern(ys, a, b, s) && Sum(s) == 0.0
    requires 1 < |s| == cfg.period && 2 * |s| <= |ys|
    ensures ForecastBy(SeasonalDecompose, ys, cfg)
         == D.LineAt(a, b, |ys| - |s| / 2 - 1) + (ys[|ys| - 1] - D.LineAt(a, b, |ys| - 1))
    ensures MAD(ResidualsBy(SeasonalDecompose, ys, cfg)) == 0.0
  {
    hide D.TrendAt, D.PeriodMeans, D.ResidualAt, Phase, Sum, MAD, D.LineAt;
    D.ExactRecovery(ys, a, b, s);
    MADOfZeros(ResidualsBy(SeasonalDecompose, ys, cfg));
  }

  // With a slope the decomposition's forecast lags by half a period, and
  // still nothing is reported.
  lemma SlopeLagsButStaysQuiet(series: seq<Point>, a: real, b: real, s: seq<real>, config: Config)
    requires series != [] && IsSortedAsc(series)
    requires |s| == Defaults(config).period && Sum(s) == 0.0 && D.Pattern(Values(series), a, b, s)
    requires ChooseMethod(|series|, |s|, Defaults(config).minSamples) == SeasonalDecompose
    ensures var v := DetectOf(series, config).verdict;
            v.residual == b * (|s| / 2) as real && v.mad == 0.0 && v.severity == SeverityNone
  {
    hide D.TrendAt, D.PeriodMeans, D.ResidualAt, Phase, Sum, MAD, D.LineAt, ForecastBy, ResidualsBy, D.Pattern;
    var cfg, ys := Defaults(config), Values(series);
    QuietDecompose(ys, a, b, s, cfg);
    Lag(a, b, |ys| - 1, |s| / 2);
    var n := |ys|;
    assert series[n - 1].value - ForecastBy(SeasonalDecompose, ys, cfg)
        == D.LineAt(a, b, n - 1) - D.LineAt(a, b, n - 1 - |s| / 2);
    NoSpreadNoAlarm(SeasonalDecompose, series[n - 1], ForecastBy(SeasonalDecompose, ys, cfg), cfg);
  }

  lemma Lag(a: real, b: real, i: nat, half: nat)
    requires half <= i
    ensures D.LineAt(a, b, i) - D.LineAt(a, b, i - half) == b * half as real
  {
    assert (i - half) as real == i as real - half as real;
  }

  // ---- Robustness ----

  // If most residuals lie in [lo, hi], a latest residual of critical times
  // that width is reported as critical, however wild the rest.
  lemma BreakdownIsCritical(series: seq<Point>, config: Config, lo: real, hi: real)
    requires series != [] && IsSortedAsc(series)
    requires var cfg, ys := Defaults(config), Values(series);
             var m := ChooseMethod(|ys|, cfg.period, cfg.minSamples);
             && !m.InsufficientData?
             && 2 * Inside(ResidualsBy(m, ys, cfg), lo, hi) > |ResidualsBy(m, ys, cfg)|
    requires var v := DetectOf(series, config).verdict;
             v.mad > 0.0 && !v.suppressed && Defaults(config).critical > 0.0
             && Abs(v.residual) >= Defaults(config).critical * (hi - lo)
    ensures DetectOf(series, config).verdict.severity == SeverityCritical
  {
    hide ForecastBy, ResidualsBy, MAD, Abs, Inside, Defaults;
    var cfg, ys := Defaults(config), Values(series);
    var m := ChooseMethod(|ys|, cfg.period, cfg.minSamples);
    MADBreakdown(ResidualsBy(m, ys, cfg), lo, hi);
    var v := DetectOf(series, config).verdict;
    RatioAtLeast(Abs(v.residual), v.mad, hi - lo, cfg.critical);
  }

  lemma RatioAtLeast(x: real, mad: real, width: real, q: real)
    requires 0.0 < mad <= width && q > 0.0 && x >= q * width
    ensures x / mad >= q
  {
    assert q * width >= q * mad;
    var r := x / mad;
    assert x == r * mad;
    if r < q {
      assert r * mad < q * mad;
    }
  }

  // The other side of a robust yardstick: it vanishes exactly when most
  // residuals are equal, and then no deviation of the latest point is
  // reported, whatever the thresholds.
  lemma NoYardstickIff(series: seq<Point>, config: Config)
    requires series != [] && IsSortedAsc(series)
    requires !ChooseMethod(|series|, Defaults(config).period, Defaults(config).minSamples).InsufficientData?
    ensures var cfg, ys := Defaults(config), Values(series);
            var m := ChooseMethod(|ys|, cfg.period, cfg.minSamples);
            var v := DetectOf(series, config).verdict;
            && (v.mad == 0.0 <==> MajorityCoincides(ResidualsBy(m, ys, cfg)))
            && (v.mad == 0.0 ==> v.severity == SeverityNone && v.madUnits == 0.0)
  {
    hide ForecastBy, ResidualsBy, MAD, Defaults, MajorityCoincides;
    var cfg, ys := Defaults(config), Values(series);
    var m := ChooseMethod(|ys|, cfg.period, cfg.minSamples);
    SomeResiduals(m, ys, cfg);
    MADZeroIff(ResidualsBy(m, ys, cfg));
    NoSpreadNoAlarm(m, series[|ys| - 1], ForecastBy(m, ys, cfg), cfg);
  }

  lemma SomeResiduals(m: Method, ys: seq<real>, cfg: Config)
    requires cfg.period > 1 && 2 * cfg.period <= |ys|
    ensures |ResidualsBy(m, ys, cfg)| > 0
  {
    hide H.InSampleAt, D.ResidualAt;
  }

  // In particular a perfectly seasonal series whose last point jumps, by any
  // amount, is not reported by the Holt-Winters branch.
  lemma SpikeAfterPerfectFitIsSilent(series: seq<Point>, a: real, s: seq<real>, config: Config)
    requires series != [] && IsSortedAsc(series)
    requires |s| == Defaults(config).period && Sum(s) == 0.0
    requires 2 * |s| < |series| && H.Seasonal(Values(series)[..|series| - 1], a, s)
    requires ChooseMethod(|series|, |s|, Defaults(config).minSamples) == HoltWintersFit
    ensures DetectOf(series, config).verdict.severity == SeverityNone
  {
    hide H.InSampleAt, H.Seasonal, Sum, DetectOf, Defaults, Inside;
    var cfg, ys := Defaults(config), Values(series);
    var rs := HoltWintersResiduals(ys, |s|, ParamsOf(cfg));
    var k := |rs| - 1;
    forall i | 0 <= i < k ensures rs[i] == 0.0 {
      FittedPrefix(ys, a, s, ParamsOf(cfg), |s| + i);
    }
    MostlyZero(rs);
    assert MajorityCoincides(rs);
    NoYardstickIff(series, config);
  }

  // The series with d added to its latest value.
  function Bumped(series: seq<Point>, d: real): (r: seq<Point>)
    requires series != []
    ensures |r| == |series|
    ensures forall i :: 0 <= i < |r| ==>
              r[i] == Point(series[i].at, series[i].value + if i == |series| - 1 then d else 0.0)
  {
    var n := |series| - 1;
    series[n := Point(series[n].at, series[n].value + d)]
  }

  // The decomposition branch is as blind to such a jump from period three on,
  // even on a slope; with period two it is not.
  lemma JumpAfterPatternIff(series: seq<Point>, a: real, b: real, s: seq<real>, d: real, config: Config)
    requires series != [] && IsSortedAsc(series)
    requires |s| == Defaults(config).period && Sum(s) == 0.0 && D.Pattern(Values(series), a, b, s)
    requires ChooseMethod(|series|, |s|, Defaults(config).minSamples) == SeasonalDecompose
    ensures var v := DetectOf(Bumped(series, d), config).verdict;
            && (v.mad == 0.0 <==> |s| >= 3 || d == 0.0)
            && (|s| >= 3 ==> v.severity == SeverityNone)
  {
    hide Sum, D.Pattern, D.ResidualAt, DetectOf, MajorityCoincides, J.JumpResiduals, Defaults, MAD;
    var n, cfg, ys := |series|, Defaults(config), Values(series);
    var zs := Values(Bumped(series, d));
    assert zs == J.Jump(ys, d);
    BumpedSorted(series, d);
    NoYardstickIff(Bumped(series, d), config);
    if d == 0.0 {
      assert zs == ys;
      QuietDecompose(ys, a, b, s, cfg);
      MADZeroIff(DecomposeResiduals(zs, |s|));
      SomeResiduals(SeasonalDecompose, zs, cfg);
    } else {
      JumpedResiduals(ys, a, b, s, d);
      if |s| >= 3 {
        J.LongPeriodCoincides(DecomposeResiduals(zs, |s|), n, |s|, d);
      } else {
        J.PeriodTwoDiffers(DecomposeResiduals(zs, |s|), n, d);
      }
    }
  }

  lemma BumpedSorted(series: seq<Point>, d: real)
    requires series != [] && IsSortedAsc(series)
    ensures IsSortedAsc(Bumped(series, d))
  {
    assert forall i :: 0 <= i < |series| ==> Bumped(series, d)[i].at == series[i].at;
  }

  lemma JumpedResiduals(ys: seq<real>, a: real, b: real, s: seq<real>, d: real)
    requires |s| > 1 && 4 * |s| <= |ys| && Sum(s) == 0.0 && D.Pattern(ys, a, b, s)
    ensures J.JumpResiduals(DecomposeResiduals(J.Jump(ys, d), |s|), |ys|, |s|, d)
  {
    hide Sum, D.Pattern, D.ResidualAt, Phase, J.Loss, J.Share;
    var rs := DecomposeResiduals(J.Jump(ys, d), |s|);
    forall j | 0 <= j < |rs|
      ensures rs[j] == D.ResidualAt(J.Jump(ys, d), |s|, |s| / 2 + j) && D.Centre(|ys|, |s|, |s| / 2 + j)
    {
    }
    forall j | 0 <= j < |rs|
      ensures var u := J.Loss(|ys|, |s|, d);
              rs[j] == -(u / |s| as real)
                       + (if Phase(|s| / 2 + j, |s|) == Phase(J.LastCentre(|ys|, |s|), |s|) then u else 0.0)
                       - (if |s| / 2 + j == J.LastCentre(|ys|, |s|) then J.Share(|s|, d) else 0.0)
    {
      J.ResidualJump(ys, a, b, s, d, |s| / 2 + j);
    }
  }

  lemma FittedPrefix(ys: seq<real>, a: real, s: seq<real>, par: H.Params, t: nat)
    requires 2 * |s| < |ys| && H.Seasonal(ys[..|ys| - 1], a, s) && s != [] && Sum(s) == 0.0
    requires t < |ys| - 1
    ensures H.InSampleAt(ys, |s|, par, t) == ys[t]
  {
    hide H.InSampleAt, H.Seasonal, Sum;
    var n := |ys| - 1;
    var xs := ys[..n];
    H.SeasonalInSample(xs, a, s, par, t);
    AgreeingFit(ys, xs, |s|, par, t);
  }

  lemma AgreeingFit(ys: seq<real>, xs: seq<real>, p: nat, par: H.Params, t: nat)
    requires 0 < p && 2 * p <= |xs| <= |ys| && xs == ys[..|xs|] && t < |xs|
    ensures H.InSampleAt(ys, p, par, t) == H.InSampleAt(xs, p, par, t)
  {
    if t >= p {
      assert xs[..|xs|] == xs;
      H.StateCausal(xs, ys, p, par, |xs|, t);
    }
  }

  lemma MostlyZero(rs: seq<real>)
    requires |rs| > 2 && forall i :: 0 <= i < |rs| - 1 ==> rs[i] == 0.0
    ensures 2 * Inside(rs, 0.0, 0.0) > |rs|
  {
    AllInside(rs[..|rs| - 1]);
  }

  function Rank(s: Severity): nat {
    match s
    case SeverityNone => 0
    case SeverityWatch => 1
    case SeverityAnomaly => 2
    case SeverityCritical => 3
  }

  // Whatever the thresholds and their order, a larger deviation is never
  // ranked lower, with or without suppression.
  lemma SeverityGrows(m: Method, latest: Point, f: real, g: real, mad: real, cfg: Config)
    requires Abs(latest.value - f) <= Abs(latest.value - g)
    ensures Rank(Judge(m, latest, f, mad, cfg).severity) <= Rank(Judge(m, latest, g, mad, cfg).severity)
  {
    hide Covered, Abs;
    if mad > 0.0 {
      UnitsGrow(Abs(latest.value - f), Abs(latest.value - g), mad);
      AbsNonNegative(latest.value - f);
    }
  }

  lemma AbsNonNegative(x: real)
    ensures Abs(x) >= 0.0
  {
  }

  lemma ProductOrder(q: real, r: real, m: real)
    requires m > 0.0
    ensures q <= r <==> q * m <= r * m
  {
    if q <= r {
      assert (r - q) * m >= 0.0;
    } else {
      assert (q - r) * m > 0.0;
    }
  }

  lemma UnitsGrow(x: real, y: real, mad: real)
    requires x <= y && mad > 0.0
    ensures x / mad <= y / mad
    ensures x >= 0.0 ==> x / mad >= 0.0
    ensures x == 0.0 <==> x / mad == 0.0
  {
    var q, r := x / mad, y / mad;
    assert x == q * mad && y == r * mad;
    ProductOrder(q, r, mad);
    ProductOrder(0.0, q, mad);
  }

  // ---- The latest point ----

  // With more than two periods of data, moving the latest value by d moves
  // the Holt-Winters residual by d and leaves its forecast alone.
  lemma LatestPointMovesResidual(series: seq<Point>, d: real, cfg: Config)
    requires series != [] && cfg.period > 1 && 2 * cfg.period < |series|
    requires ChooseMethod(|series|, cfg.period, cfg.minSamples) == HoltWintersFit
    ensures VerdictOf(Bumped(series, d), cfg).forecast == VerdictOf(series, cfg).forecast
    ensures VerdictOf(Bumped(series, d), cfg).residual == VerdictOf(series, cfg).residual + d
  {
    hide H.InSampleAt, MAD, ResidualsBy;
    var n, ys := |series|, Values(series);
    assert Values(Bumped(series, d)) == ys[n - 1 := ys[n - 1] + d];
    H.LastPointShift(ys, cfg.period, ParamsOf(cfg), d);
  }
}
