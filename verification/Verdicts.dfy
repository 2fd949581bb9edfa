// What a verdict says, in terms of the series and the configuration: which
// model is asked, what its figures are, how severe they make the latest point,
// and what a suppression window changes about it.

module Verdicts {
  import opened Stats
  import opened SuppressionCalendar
  import opened Detector
  import D = Decompose
  import H = HoltWinters

  ghost predicate InTimeOrder(series: seq<Point>) {
    forall i, j :: 0 <= i < j < |series| ==> series[i].at <= series[j].at
  }

  lemma {:induction false} NeighboursInOrder(series: seq<Point>, i: nat, j: nat)
    requires IsSortedAsc(series) && i <= j < |series|
    ensures series[i].at <= series[j].at
    decreases j
  {
    if i < j {
      NeighboursInOrder(series, i, j - 1);
    }
  }

  lemma OrderIsTime(series: seq<Point>)
    ensures IsSortedAsc(series) <==> InTimeOrder(series)
  {
    if IsSortedAsc(series) {
      forall i, j | 0 <= i < j < |series| ensures series[i].at <= series[j].at {
        NeighboursInOrder(series, i, j);
      }
    }
  }

  // The period and the fewest entries of a configuration whose zeros stand
  // for the defaults.
  function Period(cfg: Config): nat {
    if cfg.period <= 1 then 24 else cfg.period
  }

  function Fewest(cfg: Config): int {
    if cfg.minSamples == 0 then 3 * Period(cfg) else cfg.minSamples
  }

  function Weights(cfg: Config): H.Params {
    H.Params(if cfg.alpha == 0.0 then 0.3 else cfg.alpha,
             if cfg.beta == 0.0 then 0.1 else cfg.beta,
             if cfg.gamma == 0.0 then 0.1 else cfg.gamma)
  }

  // An empty series and one that goes back in time are refused. Of the others
  // one shorter than the fewest entries or than two periods is not judged;
  // below four periods Holt-Winters is asked, from then on the decomposition.
  lemma DetectChooses(series: seq<Point>, cfg: Config)
    ensures var n, p := |series|, Period(cfg);
            match DetectOf(series, cfg)
            case EmptySeries => n == 0
            case SeriesNotSorted => n > 0 && !InTimeOrder(series)
            case Detected(v) =>
              && n > 0 && InTimeOrder(series) && v.latest == series[n - 1]
              && (v.chosen == InsufficientData <==> n < Fewest(cfg) || n < 2 * p)
              && (v.chosen == HoltWintersFit <==> n >= Fewest(cfg) && 2 * p <= n < 4 * p)
              && (v.chosen == SeasonalDecompose <==> n >= Fewest(cfg) && 4 * p <= n)
  {
    hide ForecastBy, ResidualsBy, MAD, ClassifySeverity;
    OrderIsTime(series);
  }

  // The figures are those of the chosen model. The residual is the latest
  // value less the forecast, and is measured in MADs of the residuals the
  // model leaves: behind the first period, or away from both ends.
  lemma DetectReports(series: seq<Point>, cfg: Config)
    requires DetectOf(series, cfg).Detected?
    ensures var (v, n, p) := (DetectOf(series, cfg).verdict, |series|, Period(cfg));
            var ys := Values(series);
            && v.residual == v.latest.value - v.forecast
            && (v.mad > 0.0 ==> v.madUnits * v.mad == if v.residual < 0.0 then -v.residual else v.residual)
            && (v.mad <= 0.0 ==> v.madUnits == 0.0)
            && match v.chosen
               case InsufficientData => v.forecast == v.latest.value && v.mad == 0.0
               case HoltWintersFit =>
                 && H.FitOf(ys, p, Weights(cfg)).Fitted?
                 && var inSample := H.FitOf(ys, p, Weights(cfg)).fit.inSample;
                    && |inSample| == n && v.forecast == inSample[n - 1]
                    && v.mad == MAD(Differences(ys[p..], inSample[p..]))
               case SeasonalDecompose =>
                 && D.DecompositionOf(ys, p).Decomposed?
                 && var (d, half) := (D.DecompositionOf(ys, p).d, p / 2);
                    && |d.trend| == |d.season| == |d.residual| == n
                    && v.forecast == d.trend[n - half - 1] + d.season[n - 1]
                    && v.mad == MAD(d.residual[half..n - half])
  {
    hide MAD, DetectOf, Units, ForecastBy, ResidualsBy, H.FitOf, D.DecompositionOf, Defaults;
    var ys := Values(series);
    var v := DetectOf(series, cfg).verdict;
    Figures(series, cfg);
    UnitsTimesMad(v.residual, v.mad);
    SameSettings(cfg);
    if v.chosen.HoltWintersFit? {
      HoltWintersFigures(ys, Defaults(cfg));
    } else if v.chosen.SeasonalDecompose? {
      DecomposeFigures(ys, Defaults(cfg));
    }
  }

  lemma SameSettings(cfg: Config)
    ensures Defaults(cfg).period == Period(cfg) && ParamsOf(Defaults(cfg)) == Weights(cfg)
  {
  }

  lemma Figures(series: seq<Point>, cfg: Config)
    requires DetectOf(series, cfg).Detected?
    ensures var (v, ys, c) := (DetectOf(series, cfg).verdict, Values(series), Defaults(cfg));
            && v.residual == v.latest.value - v.forecast && v.madUnits == Units(v.residual, v.mad)
            && if v.chosen == InsufficientData then v.forecast == v.latest.value && v.mad == 0.0
               else
                 && 2 * c.period <= |ys|
                 && v.forecast == ForecastBy(v.chosen, ys, c) && v.mad == MAD(ResidualsBy(v.chosen, ys, c))
  {
    hide MAD, ClassifySeverity, ForecastBy, ResidualsBy, Defaults, Covered;
  }

  function Differences(xs: seq<real>, ys: seq<real>): (r: seq<real>)
    requires |xs| == |ys|
    ensures |r| == |xs| && forall i :: 0 <= i < |r| ==> r[i] == xs[i] - ys[i]
  {
    seq(|xs|, i requires 0 <= i < |xs| => xs[i] - ys[i])
  }

  lemma UnitsTimesMad(residual: real, mad: real)
    ensures mad > 0.0 ==> Units(residual, mad) * mad == if residual < 0.0 then -residual else residual
    ensures mad <= 0.0 ==> Units(residual, mad) == 0.0
  {
  }

  lemma HoltWintersFigures(ys: seq<real>, cfg: Config)
    requires cfg.period > 1 && 2 * cfg.period <= |ys|
    ensures var p := cfg.period;
            && H.FitOf(ys, p, ParamsOf(cfg)).Fitted?
            && var inSample := H.FitOf(ys, p, ParamsOf(cfg)).fit.inSample;
               && |inSample| == |ys|
               && ForecastBy(HoltWintersFit, ys, cfg) == inSample[|ys| - 1]
               && ResidualsBy(HoltWintersFit, ys, cfg) == Differences(ys[p..], inSample[p..])
  {
    hide H.InSampleAt, H.FitOf;
    FitSucceeds(ys, cfg.period, ParamsOf(cfg));
  }

  lemma DecomposeFigures(ys: seq<real>, cfg: Config)
    requires cfg.period > 1 && 2 * cfg.period <= |ys|
    ensures var p, n := cfg.period, |ys|;
            && D.DecompositionOf(ys, p).Decomposed?
            && var (d, half) := (D.DecompositionOf(ys, p).d, p / 2);
               && |d.trend| == |d.season| == |d.residual| == n
               && ForecastBy(SeasonalDecompose, ys, cfg) == d.trend[n - half - 1] + d.season[n - 1]
               && ResidualsBy(SeasonalDecompose, ys, cfg) == d.residual[half..n - half]
  {
    hide D.TrendAt, D.PeriodMeans, D.ResidualAt, Phase;
  }

  // Outside every window the units decide: from the critical threshold on
  // critical, else from the anomaly threshold on an anomaly, else from the
  // watch threshold on to be watched; no units are nothing. A threshold of
  // zero stands for eight, five and three.
  lemma SeverityMeans(series: seq<Point>, cfg: Config)
    requires cfg.calendar == [] && DetectOf(series, cfg).Detected?
    ensures var v := DetectOf(series, cfg).verdict;
            var watch := if cfg.watch == 0.0 then 3.0 else cfg.watch;
            var anomaly := if cfg.anomaly == 0.0 then 5.0 else cfg.anomaly;
            var critical := if cfg.critical == 0.0 then 8.0 else cfg.critical;
            var u := v.madUnits;
            && !v.suppressed
            && (v.severity == SeverityCritical <==> u != 0.0 && u >= critical)
            && (v.severity == SeverityAnomaly <==> u != 0.0 && u < critical && u >= anomaly)
            && (v.severity == SeverityWatch <==> u != 0.0 && u < critical && u < anomaly && u >= watch)
            && (v.severity == SeverityNone <==> u == 0.0 || (u < critical && u < anomaly && u < watch))
  {
    hide MAD, ForecastBy, ResidualsBy;
  }

  // A window that holds the latest point, its start included and its end not,
  // suppresses it: what would be an anomaly or critical is to be watched, and
  // everything else is what the same series says without a calendar.
  lemma SuppressionMeans(series: seq<Point>, cfg: Config)
    requires DetectOf(series, cfg).Detected?
    ensures DetectOf(series, cfg.(calendar := [])).Detected?
    ensures var v, u := DetectOf(series, cfg).verdict, DetectOf(series, cfg.(calendar := [])).verdict;
            var at := series[|series| - 1].at;
            && (v.suppressed <==> v.chosen != InsufficientData && exists w <- cfg.calendar :: w.start <= at < w.end)
            && (!v.suppressed ==> v == u)
            && v == u.(suppressed := v.suppressed, severity := v.severity)
            && (v.suppressed ==>
                  v.severity == if u.severity == SeverityAnomaly || u.severity == SeverityCritical then SeverityWatch
                                else u.severity)
  {
    hide MAD, ForecastBy, ResidualsBy, ClassifySeverity, Values;
    var c, d := Defaults(cfg), Defaults(cfg.(calendar := []));
    var ys := Values(series);
    var m := ChooseMethod(|ys|, c.period, c.minSamples);
    if !m.InsufficientData? {
      SameFigures(m, ys, c, d);
      SameClasses(Units(series[|series| - 1].value - ForecastBy(m, ys, c), MAD(ResidualsBy(m, ys, c))), c, d);
    }
  }

  lemma SameFigures(m: Method, ys: seq<real>, c: Config, d: Config)
    requires d == c.(calendar := d.calendar) && c.period > 1 && 2 * c.period <= |ys|
    ensures ForecastBy(m, ys, c) == ForecastBy(m, ys, d) && ResidualsBy(m, ys, c) == ResidualsBy(m, ys, d)
  {
    hide H.InSampleAt, D.TrendAt, D.PeriodMeans, D.ResidualAt;
  }

  lemma SameClasses(units: real, c: Config, d: Config)
    requires d == c.(calendar := d.calendar)
    ensures ClassifySeverity(units, c) == ClassifySeverity(units, d)
  {
  }
}
