// Classical seasonal decomposition (pkg/anomaly/stl.go).

module Decompose {
  import opened Stats

  datatype Decomposition = Decomposition(
    trend: seq<real>, season: seq<real>, residual: seq<real>, periodMeans: seq<real>)

  datatype DecomposeResult = Decomposed(d: Decomposition) | InvalidPeriod | InsufficientData

  // ---- What the passes compute ----

  // The indices at which the centred window fits into n entries.
  predicate Centre(n: nat, p: nat, i: int) {
    p / 2 <= i < n - p / 2
  }

  function WindowMean(ys: seq<real>, p: nat, lo: nat): real
    requires 0 < p && lo + p <= |ys|
  {
    Sum(ys[lo..lo + p]) / p as real
  }

  // The centred moving average at i; for an even period the mean of the two
  // windows that straddle i.
  function TrendAt(ys: seq<real>, p: nat, i: nat): real
    requires 1 < p
  {
    var half := p / 2;
    if !Centre(|ys|, p, i) then 0.0
    else if p % 2 == 1 then WindowMean(ys, p, i - half)
    else (WindowMean(ys, p, i - half) + WindowMean(ys, p, i - half + 1)) / 2.0
  }

  function Trend(ys: seq<real>, p: nat): (r: seq<real>)
    requires 1 < p
    ensures |r| == |ys| && forall i :: 0 <= i < |ys| ==> r[i] == TrendAt(ys, p, i)
  {
    seq(|ys|, i requires 0 <= i < |ys| => TrendAt(ys, p, i))
  }

  function DetrendedAt(ys: seq<real>, p: nat, i: nat): real
    requires 1 < p && i < |ys|
  {
    ys[i] - TrendAt(ys, p, i)
  }

  // Sum and number of the detrended values of phase ph at centres below hi.
  function PhaseSum(ys: seq<real>, p: nat, ph: nat, hi: nat): real
    requires 1 < p && p / 2 <= hi <= |ys|
    decreases hi
  {
    if hi == p / 2 then 0.0
    else PhaseSum(ys, p, ph, hi - 1) + if Phase(hi - 1, p) == ph then DetrendedAt(ys, p, hi - 1) else 0.0
  }

  function PhaseCount(p: nat, ph: nat, hi: nat): nat
    requires 1 < p && p / 2 <= hi
    decreases hi
  {
    if hi == p / 2 then 0
    else PhaseCount(p, ph, hi - 1) + if Phase(hi - 1, p) == ph then 1 else 0
  }

  function RawMean(ys: seq<real>, p: nat, ph: nat): real
    requires 1 < p && 2 * p <= |ys|
  {
    var hi := |ys| - p / 2;
    if PhaseCount(p, ph, hi) > 0 then PhaseSum(ys, p, ph, hi) / PhaseCount(p, ph, hi) as real else 0.0
  }

  function RawMeans(ys: seq<real>, p: nat): (r: seq<real>)
    requires 1 < p && 2 * p <= |ys|
    ensures |r| == p && forall ph :: 0 <= ph < p ==> r[ph] == RawMean(ys, p, ph)
  {
    seq(p, ph requires 0 <= ph < p => RawMean(ys, p, ph))
  }

  function PeriodMeans(ys: seq<real>, p: nat): (r: seq<real>)
    requires 1 < p && 2 * p <= |ys|
    ensures |r| == p
  {
    Centred(RawMeans(ys, p))
  }

  function Season(ys: seq<real>, p: nat): (r: seq<real>)
    requires 1 < p && 2 * p <= |ys|
    ensures |r| == |ys| && forall i :: 0 <= i < |ys| ==> r[i] == PeriodMeans(ys, p)[Phase(i, p)]
  {
    seq(|ys|, i requires 0 <= i < |ys| => PeriodMeans(ys, p)[Phase(i, p)])
  }

  function ResidualAt(ys: seq<real>, p: nat, i: nat): real
    requires 1 < p && 2 * p <= |ys| && i < |ys|
  {
    if Centre(|ys|, p, i) then ys[i] - TrendAt(ys, p, i) - PeriodMeans(ys, p)[Phase(i, p)] else 0.0
  }

  function Residual(ys: seq<real>, p: nat): (r: seq<real>)
    requires 1 < p && 2 * p <= |ys|
    ensures |r| == |ys| && forall i :: 0 <= i < |ys| ==> r[i] == ResidualAt(ys, p, i)
  {
    seq(|ys|, i requires 0 <= i < |ys| => ResidualAt(ys, p, i))
  }

  function DecompositionOf(ys: seq<real>, period: int): DecomposeResult {
    if period <= 1 then InvalidPeriod
    else if |ys| < 2 * period then InsufficientData
    else Decomposed(Decomposition(Trend(ys, period), Season(ys, period), Residual(ys, period), PeriodMeans(ys, period)))
  }

  // ---- The passes ----

  // Sum of the p entries from lo on, over p.
  method AverageWindow(ys: seq<real>, period: nat, lo: nat) returns (m: real)
    requires 0 < period && lo + period <= |ys|
    ensures m == WindowMean(ys, period, lo)
  {
    var s := 0.0;
    for j := 0 to period
      invariant s == Sum(ys[lo..lo + j])
    {
      assert ys[lo..lo + j + 1] == ys[lo..lo + j] + [ys[lo + j]];
      SumSnoc(ys[lo..lo + j], ys[lo + j]);
      s := s + ys[lo + j];
    }
    return s / period as real;
  }

  lemma TrendCases(ys: seq<real>, p: nat, i: nat)
    requires 1 < p && i < |ys|
    ensures !Centre(|ys|, p, i) ==> TrendAt(ys, p, i) == 0.0
    ensures Centre(|ys|, p, i) && p % 2 == 1 ==> TrendAt(ys, p, i) == WindowMean(ys, p, i - p / 2)
    ensures Centre(|ys|, p, i) && p % 2 == 0 ==>
              TrendAt(ys, p, i) == (WindowMean(ys, p, i - p / 2) + WindowMean(ys, p, i - p / 2 + 1)) / 2.0
  {
  }

  method CentredMovingAverage(ys: seq<real>, period: nat) returns (out: array<real>)
    requires 1 < period && 2 * period <= |ys|
    ensures fresh(out) && out[..] == Trend(ys, period)
  {
    hide TrendAt, WindowMean;
    var n := |ys|;
    out := new real[n](_ => 0.0);
    var half := period / 2;
    forall k | 0 <= k < n && !Centre(n, period, k) ensures TrendAt(ys, period, k) == 0.0 {
      TrendCases(ys, period, k);
    }
    if period % 2 == 1 {
      for i := half to n - half
        invariant forall k :: 0 <= k < n ==> out[k] == if k < i then TrendAt(ys, period, k) else 0.0
      {
        TrendCases(ys, period, i);
        out[i] := AverageWindow(ys, period, i - half);
      }
      return;
    }
    var periodMA := PeriodAverages(ys, period);
    for i := half to n - half
      invariant forall k :: half - 1 <= k < n - half ==> periodMA[k] == WindowMean(ys, period, k - half + 1)
      invariant forall k :: 0 <= k < n ==> out[k] == if k < i then TrendAt(ys, period, k) else 0.0
    {
      TrendCases(ys, period, i);
      out[i] := (periodMA[i - 1] + periodMA[i]) / 2.0;
    }
  }

  // The moving averages an even period takes the mean of, pair by pair.
  method PeriodAverages(ys: seq<real>, period: nat) returns (periodMA: array<real>)
    requires 1 < period && 2 * period <= |ys| && period % 2 == 0
    ensures fresh(periodMA) && periodMA.Length == |ys|
    ensures forall k :: period / 2 - 1 <= k < |ys| - period / 2 ==> periodMA[k] == WindowMean(ys, period, k - period / 2 + 1)
  {
    hide WindowMean;
    var n, half := |ys|, period / 2;
    periodMA := new real[n](_ => 0.0);
    for i := half - 1 to n - half
      invariant forall k :: half - 1 <= k < i ==> periodMA[k] == WindowMean(ys, period, k - half + 1)
    {
      periodMA[i] := AverageWindow(ys, period, i - half + 1);
    }
  }

  // Sums and counts per phase over the centres.
  method PhaseTotals(ys: seq<real>, period: nat, trend: array<real>)
    returns (sumPerPhase: array<real>, count: array<nat>)
    requires 1 < period && 2 * period <= |ys| && trend[..] == Trend(ys, period)
    ensures fresh(sumPerPhase) && fresh(count) && sumPerPhase.Length == count.Length == period
    ensures forall ph :: 0 <= ph < period ==> sumPerPhase[ph] == PhaseSum(ys, period, ph, |ys| - period / 2)
    ensures forall ph :: 0 <= ph < period ==> count[ph] == PhaseCount(period, ph, |ys| - period / 2)
  {
    hide Phase, TrendAt;
    var n := |ys|;
    sumPerPhase := new real[period](_ => 0.0);
    count := new nat[period](_ => 0);
    var detrended := new real[n](_ => 0.0);
    var half := period / 2;
    for i := half to n - half
      invariant forall ph :: 0 <= ph < period ==> sumPerPhase[ph] == PhaseSum(ys, period, ph, i)
      invariant forall ph :: 0 <= ph < period ==> count[ph] == PhaseCount(period, ph, i)
    {
      assert trend[i] == trend[..][i];
      detrended[i] := ys[i] - trend[i];
      var ph := Phase(i, period);
      sumPerPhase[ph] := sumPerPhase[ph] + detrended[i];
      count[ph] := count[ph] + 1;
    }
  }

  method ComputePeriodMeans(ys: seq<real>, period: nat, trend: array<real>) returns (periodMeans: array<real>)
    requires 1 < period && 2 * period <= |ys| && trend[..] == Trend(ys, period)
    ensures fresh(periodMeans) && periodMeans[..] == PeriodMeans(ys, period)
  {
    var sumPerPhase, count := PhaseTotals(ys, period, trend);
    periodMeans := new real[period](_ => 0.0);
    for ph := 0 to period
      invariant forall k :: 0 <= k < period ==> sumPerPhase[k] == PhaseSum(ys, period, k, |ys| - period / 2)
      invariant forall k :: 0 <= k < period ==> count[k] == PhaseCount(period, k, |ys| - period / 2)
      invariant forall k :: 0 <= k < period ==> periodMeans[k] == if k < ph then RawMean(ys, period, k) else 0.0
    {
      if count[ph] > 0 {
        periodMeans[ph] := sumPerPhase[ph] / count[ph] as real;
      }
    }
    ghost var raw := RawMeans(ys, period);
    assert periodMeans[..] == raw;
    var mean := ComputeMean(periodMeans[..]);
    for ph := 0 to period
      invariant forall k :: 0 <= k < period ==> periodMeans[k] == if k < ph then raw[k] - mean else raw[k]
    {
      periodMeans[ph] := periodMeans[ph] - mean;
    }
  }

  method DecomposeSeries(ys: seq<real>, period: int) returns (r: DecomposeResult)
    ensures r == DecompositionOf(ys, period)
  {
    hide TrendAt, PeriodMeans, Phase;
    if period <= 1 {
      return InvalidPeriod;
    }
    var n := |ys|;
    if n < 2 * period {
      return InsufficientData;
    }
    var trend := CentredMovingAverage(ys, period);
    var periodMeans := ComputePeriodMeans(ys, period, trend);
    ghost var means := PeriodMeans(ys, period);
    var season := new real[n];
    for i := 0 to n
      invariant periodMeans[..] == means && trend[..] == Trend(ys, period)
      invariant forall k :: 0 <= k < i ==> season[k] == Season(ys, period)[k]
    {
      assert periodMeans[Phase(i, period)] == means[Phase(i, period)];
      season[i] := periodMeans[Phase(i, period)];
    }
    var residual := new real[n](_ => 0.0);
    var half := period / 2;
    for i := half to n - half
      invariant periodMeans[..] == means && trend[..] == Trend(ys, period) && season[..] == Season(ys, period)
      invariant forall k :: 0 <= k < n ==> residual[k] == if k < i then ResidualAt(ys, period, k) else 0.0
    {
      assert trend[i] == trend[..][i] && season[i] == season[..][i];
      residual[i] := ys[i] - trend[i] - season[i];
    }
    assert season[..] == Season(ys, period) && residual[..] == Residual(ys, period);
    return Decomposed(Decomposition(trend[..], season[..], residual[..], periodMeans[..]));
  }

  // ---- Exact recovery ----

  // Sum of the m pattern values from index lo on.
  function CycleSum(s: seq<real>, lo: nat, m: nat): real
    requires s != []
  {
    if m == 0 then 0.0 else CycleSum(s, lo, m - 1) + s[Phase(lo + m - 1, |s|)]
  }

  lemma {:induction false} CycleShift(s: seq<real>, lo: nat, m: nat)
    requires s != []
    ensures CycleSum(s, lo, m + 1) == s[Phase(lo, |s|)] + CycleSum(s, lo + 1, m)
  {
    hide Phase;
    if m > 0 {
      CycleShift(s, lo, m - 1);
    }
  }

  lemma {:induction false} FirstCycleSum(s: seq<real>, m: nat)
    requires s != [] && m <= |s|
    ensures CycleSum(s, 0, m) == Sum(s[..m])
  {
    hide Phase;
    if m > 0 {
      FirstCycleSum(s, m - 1);
      PhasePeriodic(m - 1, |s|);
      SumTake(s, m - 1);
    }
  }

  // Any |s| consecutive values of the pattern have the sum of the pattern.
  lemma {:induction false} WholeCycle(s: seq<real>, lo: nat)
    requires s != []
    ensures CycleSum(s, lo, |s|) == Sum(s)
    decreases lo
  {
    hide Phase;
    if lo == 0 {
      FirstCycleSum(s, |s|);
      assert s[..|s|] == s;
    } else {
      WholeCycle(s, lo - 1);
      CycleShift(s, lo - 1, |s|);
      PhasePeriodic(lo - 1, |s|);
    }
  }

  function OnLine(a: real, b: real, x: real): real {
    a + b * x
  }

  function LineAt(a: real, b: real, i: nat): real {
    OnLine(a, b, i as real)
  }

  // Level a, slope b and the repeating pattern s.
  predicate Pattern(ys: seq<real>, a: real, b: real, s: seq<real>) {
    s != [] && forall i :: 0 <= i < |ys| ==> ys[i] == LineAt(a, b, i) + s[Phase(i, |s|)]
  }

  // Sum of a + b*i over the m indices from lo on.
  function LineSum(a: real, b: real, lo: nat, m: nat): real {
    m as real * a + b * (m as real * lo as real + m as real * (m as real - 1.0) / 2.0)
  }

  lemma LineStepReal(a: real, b: real, x: real, y: real)
    ensures (x + 1.0) * a + b * ((x + 1.0) * y + (x + 1.0) * (x + 1.0 - 1.0) / 2.0)
         == x * a + b * (x * y + x * (x - 1.0) / 2.0) + (a + b * (y + x))
  {
    var u := x * y + x * (x - 1.0) / 2.0;
    assert (x + 1.0) * y + (x + 1.0) * (x + 1.0 - 1.0) / 2.0 == u + (y + x);
    assert b * (u + (y + x)) == b * u + b * (y + x);
    assert (x + 1.0) * a == x * a + a;
  }

  lemma LineStep(a: real, b: real, lo: nat, m: nat)
    ensures LineSum(a, b, lo, m + 1) == LineSum(a, b, lo, m) + LineAt(a, b, lo + m)
  {
    LineStepReal(a, b, m as real, lo as real);
  }

  lemma {:induction false} PatternSum(ys: seq<real>, a: real, b: real, s: seq<real>, lo: nat, m: nat)
    requires Pattern(ys, a, b, s) && lo + m <= |ys|
    ensures Sum(ys[lo..lo + m]) == LineSum(a, b, lo, m) + CycleSum(s, lo, m)
  {
    hide Phase, LineSum, LineAt;
    if m == 0 {
      LineNothing(a, b, lo);
    } else {
      PatternSum(ys, a, b, s, lo, m - 1);
      LineStep(a, b, lo, m - 1);
      assert ys[lo..lo + m] == ys[lo..lo + m - 1] + [ys[lo + m - 1]];
      SumSnoc(ys[lo..lo + m - 1], ys[lo + m - 1]);
    }
  }

  lemma LineNothing(a: real, b: real, lo: nat)
    ensures LineSum(a, b, lo, 0) == 0.0
  {
  }

  // The middle of a window of p indices from lo on.
  function WindowCentre(lo: nat, p: nat): real {
    lo as real + (p as real - 1.0) / 2.0
  }

  lemma LineFactor(a: real, b: real, x: real, y: real)
    ensures x * a + b * (x * y + x * (x - 1.0) / 2.0) == (a + b * (y + (x - 1.0) / 2.0)) * x
  {
    assert x * (x - 1.0) / 2.0 == ((x - 1.0) / 2.0) * x;
    var h := (x - 1.0) / 2.0;
    assert x * y + h * x == (y + h) * x;
    assert b * ((y + h) * x) == (b * (y + h)) * x;
    assert a * x + (b * (y + h)) * x == (a + b * (y + h)) * x;
  }

  lemma LineMean(a: real, b: real, lo: nat, p: nat)
    requires p > 0
    ensures LineSum(a, b, lo, p) / p as real == OnLine(a, b, WindowCentre(lo, p))
  {
    var x, y := p as real, lo as real;
    LineFactor(a, b, x, y);
    Cancel(x, a + b * (y + (x - 1.0) / 2.0));
  }

  lemma PatternWindow(ys: seq<real>, a: real, b: real, s: seq<real>, lo: nat)
    requires s != [] && Pattern(ys, a, b, s) && lo + |s| <= |ys| && Sum(s) == 0.0
    ensures WindowMean(ys, |s|, lo) == OnLine(a, b, WindowCentre(lo, |s|))
  {
    hide LineSum, CycleSum, Sum, OnLine, WindowCentre, Pattern;
    PatternSum(ys, a, b, s, lo, |s|);
    WholeCycle(s, lo);
    LineMean(a, b, lo, |s|);
  }

  // The centred average removes the pattern and keeps the line.
  lemma PatternTrend(ys: seq<real>, a: real, b: real, s: seq<real>, i: nat)
    requires Pattern(ys, a, b, s) && |s| > 1 && Sum(s) == 0.0 && Centre(|ys|, |s|, i)
    ensures TrendAt(ys, |s|, i) == LineAt(a, b, i)
  {
    hide Pattern, WindowMean, Sum, TrendAt, OnLine, WindowCentre;
    var p, half := |s|, |s| / 2;
    TrendCases(ys, p, i);
    PatternWindow(ys, a, b, s, i - half);
    if p % 2 == 1 {
      OddCentre(i, half, p);
    } else {
      PatternWindow(ys, a, b, s, i - half + 1);
      EvenCentre(a, b, i, half, p);
    }
  }

  lemma OddCentre(i: nat, half: nat, p: nat)
    requires p == 2 * half + 1 && half <= i
    ensures WindowCentre(i - half, p) == i as real
  {
  }

  lemma EvenCentre(a: real, b: real, i: nat, half: nat, p: nat)
    requires p == 2 * half && half <= i
    ensures (OnLine(a, b, WindowCentre(i - half, p)) + OnLine(a, b, WindowCentre(i - half + 1, p))) / 2.0 == LineAt(a, b, i)
  {
    assert WindowCentre(i - half, p) == i as real - 0.5;
    assert WindowCentre(i - half + 1, p) == i as real + 0.5;
  }

  function Times(m: nat, x: real): real {
    m as real * x
  }

  lemma CountStep(m: nat, x: real)
    ensures Times(m + 1, x) == Times(m, x) + x && Times(0, x) == 0.0
  {
  }

  lemma {:induction false} PatternPhaseSum(ys: seq<real>, a: real, b: real, s: seq<real>, ph: nat, hi: nat)
    requires Pattern(ys, a, b, s) && |s| > 1 && Sum(s) == 0.0 && ph < |s|
    requires |s| / 2 <= hi <= |ys| - |s| / 2
    ensures PhaseSum(ys, |s|, ph, hi) == Times(PhaseCount(|s|, ph, hi), s[ph])
    decreases hi
  {
    hide Phase, TrendAt, Sum, LineAt, Times;
    var p := |s|;
    CountStep(0, s[ph]);
    if hi > p / 2 {
      PatternPhaseSum(ys, a, b, s, ph, hi - 1);
      PatternTrend(ys, a, b, s, hi - 1);
      CountStep(PhaseCount(p, ph, hi - 1), s[ph]);
    }
  }

  lemma {:induction false} CountPositive(p: nat, ph: nat, i: nat, hi: nat)
    requires 1 < p && p / 2 <= i < hi && Phase(i, p) == ph
    ensures PhaseCount(p, ph, hi) > 0
    decreases hi
  {
    hide Phase;
    if i < hi - 1 {
      CountPositive(p, ph, i, hi - 1);
    }
  }

  lemma EveryPhaseOccurs(p: nat, ph: nat, n: nat)
    requires 1 < p && ph < p && 2 * p <= n
    ensures PhaseCount(p, ph, n - p / 2) > 0
  {
    hide Phase;
    var i := if ph >= p / 2 then ph else ph + p;
    PhasePeriodic(ph, p);
    CountPositive(p, ph, i, n - p / 2);
  }

  lemma CancelCount(m: nat, x: real)
    requires m > 0
    ensures Times(m, x) / m as real == x
  {
    Cancel(m as real, x);
  }

  lemma PatternRawMean(ys: seq<real>, a: real, b: real, s: seq<real>, ph: nat)
    requires Pattern(ys, a, b, s) && |s| > 1 && Sum(s) == 0.0 && 2 * |s| <= |ys| && ph < |s|
    ensures RawMean(ys, |s|, ph) == s[ph]
  {
    hide PhaseSum, PhaseCount, Sum, Times, LineAt, Phase;
    var p, hi := |s|, |ys| - |s| / 2;
    EveryPhaseOccurs(p, ph, |ys|);
    PatternPhaseSum(ys, a, b, s, ph, hi);
    CancelCount(PhaseCount(p, ph, hi), s[ph]);
  }

  // The decomposition of level + slope + zero-sum pattern finds all three:
  // the line at every centre, the pattern, and nothing left over.
  lemma ExactRecovery(ys: seq<real>, a: real, b: real, s: seq<real>)
    requires Pattern(ys, a, b, s) && |s| > 1 && Sum(s) == 0.0 && 2 * |s| <= |ys|
    ensures PeriodMeans(ys, |s|) == s
    ensures forall i: nat :: i < |ys| ==> Season(ys, |s|)[i] == s[i % |s|]
    ensures forall i: nat :: Centre(|ys|, |s|, i) ==> TrendAt(ys, |s|, i) == LineAt(a, b, i)
    ensures forall i: nat :: i < |ys| ==> ResidualAt(ys, |s|, i) == 0.0
  {
    hide Phase, TrendAt, Sum, RawMean, LineAt, Season, PeriodMeans;
    PatternMeans(ys, a, b, s);
    forall i: nat | i < |ys| ensures Season(ys, |s|)[i] == s[i % |s|] {
      SeasonAt(ys, |s|, i);
    }
    forall i: nat | Centre(|ys|, |s|, i) ensures TrendAt(ys, |s|, i) == LineAt(a, b, i) {
      PatternTrend(ys, a, b, s, i);
    }
  }

  lemma PatternMeans(ys: seq<real>, a: real, b: real, s: seq<real>)
    requires Pattern(ys, a, b, s) && |s| > 1 && Sum(s) == 0.0 && 2 * |s| <= |ys|
    ensures PeriodMeans(ys, |s|) == s
  {
    hide Phase, TrendAt, Sum, RawMean, LineAt;
    forall ph | 0 <= ph < |s| ensures RawMeans(ys, |s|)[ph] == s[ph] {
      PatternRawMean(ys, a, b, s, ph);
    }
    assert RawMeans(ys, |s|) == s;
    ZeroSum(s);
  }

  lemma SeasonAt(ys: seq<real>, p: nat, i: nat)
    requires 1 < p && 2 * p <= |ys| && i < |ys|
    ensures Season(ys, p)[i] == PeriodMeans(ys, p)[i % p]
  {
  }

  // ---- Affine changes of the data ----

  lemma WindowAffine(k: real, c: real, ys: seq<real>, p: nat, lo: nat)
    requires 0 < p && lo + p <= |ys|
    ensures WindowMean(Affine(k, c, ys), p, lo) == Aff(k, c, WindowMean(ys, p, lo))
  {
    hide Aff;
    assert Affine(k, c, ys)[lo..lo + p] == Affine(k, c, ys[lo..lo + p]);
    MeanAffine(k, c, ys[lo..lo + p]);
  }

  lemma TrendAffineAt(k: real, c: real, ys: seq<real>, p: nat, i: nat)
    requires 1 < p && Centre(|ys|, p, i)
    ensures TrendAt(Affine(k, c, ys), p, i) == Aff(k, c, TrendAt(ys, p, i))
  {
    hide Aff, WindowMean;
    var half := p / 2;
    WindowAffine(k, c, ys, p, i - half);
    if p % 2 == 0 {
      WindowAffine(k, c, ys, p, i - half + 1);
      HalfAffine(k, c, WindowMean(ys, p, i - half), WindowMean(ys, p, i - half + 1));
    }
  }

  lemma {:induction false} PhaseSumAffine(k: real, c: real, ys: seq<real>, p: nat, ph: nat, hi: nat)
    requires 1 < p && p / 2 <= hi <= |ys| - p / 2
    ensures PhaseSum(Affine(k, c, ys), p, ph, hi) == Aff(k, 0.0, PhaseSum(ys, p, ph, hi))
    decreases hi
  {
    hide Aff, Phase, TrendAt;
    if hi == p / 2 {
      LinearZero(k);
    } else {
      PhaseSumAffine(k, c, ys, p, ph, hi - 1);
      TrendAffineAt(k, c, ys, p, hi - 1);
      AffDifference(k, c, ys[hi - 1], TrendAt(ys, p, hi - 1));
      AffDifference(k, 0.0, PhaseSum(ys, p, ph, hi - 1), DetrendedAt(ys, p, hi - 1));
    }
  }

  lemma LinearZero(k: real)
    ensures Aff(k, 0.0, 0.0) == 0.0
  {
  }

  lemma LinearDivide(k: real, x: real, m: real)
    requires m > 0.0
    ensures Aff(k, 0.0, x) / m == Aff(k, 0.0, x / m)
  {
    var q := x / m;
    assert x == q * m;
    Factor(k, q, 0.0, m);
    Cancel(m, k * q);
  }

  lemma RawMeanAffine(k: real, c: real, ys: seq<real>, p: nat, ph: nat)
    requires 1 < p && 2 * p <= |ys| && ph < p
    ensures RawMean(Affine(k, c, ys), p, ph) == Aff(k, 0.0, RawMean(ys, p, ph))
  {
    hide Aff, PhaseSum, PhaseCount;
    var hi := |ys| - p / 2;
    LinearZero(k);
    PhaseSumAffine(k, c, ys, p, ph, hi);
    if PhaseCount(p, ph, hi) > 0 {
      LinearDivide(k, PhaseSum(ys, p, ph, hi), PhaseCount(p, ph, hi) as real);
    }
  }

  // The season scales, the shift drops out.
  lemma PeriodMeansAffine(k: real, c: real, ys: seq<real>, p: nat)
    requires 1 < p && 2 * p <= |ys|
    ensures PeriodMeans(Affine(k, c, ys), p) == Affine(k, 0.0, PeriodMeans(ys, p))
  {
    hide Aff, RawMean, Centred;
    forall ph | 0 <= ph < p
      ensures RawMeans(Affine(k, c, ys), p)[ph] == Affine(k, 0.0, RawMeans(ys, p))[ph]
    {
      RawMeanAffine(k, c, ys, p, ph);
    }
    assert RawMeans(Affine(k, c, ys), p) == Affine(k, 0.0, RawMeans(ys, p));
    CentredAffine(k, 0.0, RawMeans(ys, p));
  }

  lemma ResidualAffine(k: real, c: real, ys: seq<real>, p: nat, i: nat)
    requires 1 < p && 2 * p <= |ys| && i < |ys|
    ensures ResidualAt(Affine(k, c, ys), p, i) == Aff(k, 0.0, ResidualAt(ys, p, i))
  {
    hide Aff, PeriodMeans, Phase, TrendAt;
    if Centre(|ys|, p, i) {
      PeriodMeansAffine(k, c, ys, p);
      TrendAffineAt(k, c, ys, p, i);
      AffDifference(k, c, ys[i], TrendAt(ys, p, i));
      AffDifference(k, 0.0, ys[i] - TrendAt(ys, p, i), PeriodMeans(ys, p)[Phase(i, p)]);
    } else {
      LinearZero(k);
    }
  }

  // ---- What the trend and the season are for any data ----

  // Within half a period of either end there is no trend. Elsewhere it is the
  // mean of the values around i: of the p values centred on i for an odd
  // period, of the two stretches of p values that share their centre with i
  // between them for an even one.
  lemma TrendIsCentredMean(ys: seq<real>, p: nat, i: nat)
    requires 1 < p && i < |ys|
    ensures var half, t, m := p / 2, TrendAt(ys, p, i), p as real;
            if i < half || i + half >= |ys| then t == 0.0
            else if p % 2 == 1 then t * m == Sum(ys[i - half..i + half + 1])
            else t * m * 2.0 == Sum(ys[i - half..i + half]) + Sum(ys[i - half + 1..i + half + 1])
  {
    hide Sum;
    var half := p / 2;
    if Centre(|ys|, p, i) {
      WindowTotal(ys, p, i - half);
      if p % 2 == 0 {
        WindowTotal(ys, p, i - half + 1);
        HalfOf(WindowMean(ys, p, i - half), WindowMean(ys, p, i - half + 1), p as real);
      }
    }
  }

  lemma HalfOf(x: real, y: real, m: real)
    ensures (x + y) / 2.0 * m * 2.0 == x * m + y * m
  {
  }

  lemma WindowTotal(ys: seq<real>, p: nat, lo: nat)
    requires 0 < p && lo + p <= |ys|
    ensures WindowMean(ys, p, lo) * p as real == Sum(ys[lo..lo + p])
  {
    Quotient(Sum(ys[lo..lo + p]), p as real);
  }

  lemma Quotient(x: real, m: real)
    requires m > 0.0
    ensures x / m * m == x
  {
  }

  // The sum of xs over the indices below hi that are ph modulo p.
  function Share(xs: seq<real>, p: nat, ph: nat, hi: nat): real
    requires 0 < p && hi <= |xs|
  {
    if hi == 0 then 0.0 else Share(xs, p, ph, hi - 1) + if (hi - 1) % p == ph then xs[hi - 1] else 0.0
  }

  // How many of those lie at least half a period away from both ends of n.
  function Inner(n: nat, p: nat, ph: nat, hi: nat): nat
    requires 0 < p
  {
    if hi == 0 then 0
    else Inner(n, p, ph, hi - 1) + if (hi - 1) % p == ph && p / 2 <= hi - 1 < n - p / 2 then 1 else 0
  }

  // Every phase is left with the same mean residual c.
  ghost predicate Balanced(ys: seq<real>, p: nat, c: real)
    requires 1 < p && 2 * p <= |ys|
  {
    forall ph :: 0 <= ph < p ==>
      && Inner(|ys|, p, ph, |ys|) > 0
      && Share(Residual(ys, p), p, ph, |ys|) == c * Inner(|ys|, p, ph, |ys|) as real
  }

  // The season is the one that repeats with the period, sums to zero over it,
  // and leaves the same mean residual in every phase.
  lemma SeasonBalances(ys: seq<real>, p: nat)
    requires 1 < p && 2 * p <= |ys|
    ensures exists c :: Balanced(ys, p, c)
    ensures Sum(Season(ys, p)[..p]) == 0.0
    ensures forall i: nat :: i + p < |ys| ==> Season(ys, p)[i + p] == Season(ys, p)[i]
  {
    hide Sum, Mean, Centred, Residual, Share, Inner, Season, RawMean, PeriodMeans;
    var c := Mean(RawMeans(ys, p));
    forall ph | 0 <= ph < p
      ensures Inner(|ys|, p, ph, |ys|) > 0
      ensures Share(Residual(ys, p), p, ph, |ys|) == c * Inner(|ys|, p, ph, |ys|) as real
    {
      PhaseBalances(ys, p, ph);
    }
    assert Balanced(ys, p, c);
    MeansSumToZero(ys, p);
    FirstSeason(ys, p);
    forall i: nat | i + p < |ys| ensures Season(ys, p)[i + p] == Season(ys, p)[i] {
      PhasePeriodic(i, p);
    }
  }

  lemma MeansSumToZero(ys: seq<real>, p: nat)
    requires 1 < p && 2 * p <= |ys|
    ensures Sum(PeriodMeans(ys, p)) == 0.0
  {
    CentredSumsToZero(RawMeans(ys, p));
  }

  lemma FirstSeason(ys: seq<real>, p: nat)
    requires 1 < p && 2 * p <= |ys|
    ensures Season(ys, p)[..p] == PeriodMeans(ys, p)
  {
    hide PeriodMeans;
    forall i | 0 <= i < p ensures Season(ys, p)[i] == PeriodMeans(ys, p)[i] {
      PhasePeriodic(i, p);
    }
  }

  lemma PhaseBalances(ys: seq<real>, p: nat, ph: nat)
    requires 1 < p && 2 * p <= |ys| && ph < p
    ensures Inner(|ys|, p, ph, |ys|) > 0
    ensures Share(Residual(ys, p), p, ph, |ys|) == Mean(RawMeans(ys, p)) * Inner(|ys|, p, ph, |ys|) as real
  {
    hide *;
    var hi := |ys| - p / 2;
    EveryPhaseOccurs(p, ph, |ys|);
    ShareUpTo(ys, p, ph, hi);
    ShareBehind(ys, p, ph, |ys|);
    assert Inner(|ys|, p, ph, |ys|) == PhaseCount(p, ph, hi);
    RawLeftover(ys, p, ph);
  }

  lemma RawLeftover(ys: seq<real>, p: nat, ph: nat)
    requires 1 < p && 2 * p <= |ys| && ph < p && PhaseCount(p, ph, |ys| - p / 2) > 0
    ensures var hi := |ys| - p / 2;
            var k := PhaseCount(p, ph, hi) as real;
            PhaseSum(ys, p, ph, hi) - PeriodMeans(ys, p)[ph] * k == Mean(RawMeans(ys, p)) * k
  {
    hide Mean, RawMean, PeriodMeans, PhaseSum, PhaseCount;
    RawTotal(ys, p, ph);
    MeanTaken(ys, p, ph);
    Leftover(PhaseCount(p, ph, |ys| - p / 2) as real, RawMean(ys, p, ph), PeriodMeans(ys, p)[ph], Mean(RawMeans(ys, p)));
  }

  lemma Leftover(k: real, raw: real, m: real, mean: real)
    requires m == raw - mean
    ensures raw * k - m * k == mean * k
  {
  }

  lemma MeanTaken(ys: seq<real>, p: nat, ph: nat)
    requires 1 < p && 2 * p <= |ys| && ph < p
    ensures PeriodMeans(ys, p)[ph] == RawMean(ys, p, ph) - Mean(RawMeans(ys, p))
  {
  }

  lemma RawTotal(ys: seq<real>, p: nat, ph: nat)
    requires 1 < p && 2 * p <= |ys| && PhaseCount(p, ph, |ys| - p / 2) > 0
    ensures RawMean(ys, p, ph) * PhaseCount(p, ph, |ys| - p / 2) as real == PhaseSum(ys, p, ph, |ys| - p / 2)
  {
    hide PhaseSum, PhaseCount;
    Quotient(PhaseSum(ys, p, ph, |ys| - p / 2), PhaseCount(p, ph, |ys| - p / 2) as real);
  }

  lemma ResidualHere(ys: seq<real>, p: nat, i: nat)
    requires 1 < p && 2 * p <= |ys| && i < |ys|
    ensures Residual(ys, p)[i] ==
            if p / 2 <= i < |ys| - p / 2 then DetrendedAt(ys, p, i) - PeriodMeans(ys, p)[i % p] else 0.0
  {
  }

  lemma {:induction false} ShareBefore(ys: seq<real>, p: nat, ph: nat, hi: nat)
    requires 1 < p && 2 * p <= |ys| && hi <= p / 2
    ensures Share(Residual(ys, p), p, ph, hi) == 0.0 && Inner(|ys|, p, ph, hi) == 0
  {
    hide Residual;
    if hi > 0 {
      ShareBefore(ys, p, ph, hi - 1);
      ResidualHere(ys, p, hi - 1);
    }
  }

  // Up to hi, what the phase's centres are left with.
  lemma {:induction false} ShareUpTo(ys: seq<real>, p: nat, ph: nat, hi: nat)
    requires 1 < p && 2 * p <= |ys| && ph < p && p / 2 <= hi <= |ys| - p / 2
    ensures Inner(|ys|, p, ph, hi) == PhaseCount(p, ph, hi)
    ensures Share(Residual(ys, p), p, ph, hi)
         == PhaseSum(ys, p, ph, hi) - PeriodMeans(ys, p)[ph] * PhaseCount(p, ph, hi) as real
    decreases hi
  {
    hide Residual, PeriodMeans, DetrendedAt, Share, Inner, PhaseSum, PhaseCount;
    if hi == p / 2 {
      ShareBefore(ys, p, ph, hi);
      NothingYet(ys, p, ph);
    } else {
      ShareUpTo(ys, p, ph, hi - 1);
      PhaseStep(ys, p, ph, hi);
      ShareStep(ys, p, ph, hi);
      if (hi - 1) % p == ph {
        OneMore(PeriodMeans(ys, p)[ph], PhaseCount(p, ph, hi - 1));
      }
    }
  }

  lemma NothingYet(ys: seq<real>, p: nat, ph: nat)
    requires 1 < p && 2 * p <= |ys| && ph < p
    ensures PhaseCount(p, ph, p / 2) == 0
    ensures PhaseSum(ys, p, ph, p / 2) - PeriodMeans(ys, p)[ph] * 0 as real == 0.0
  {
    hide PeriodMeans;
  }

  lemma PhaseStep(ys: seq<real>, p: nat, ph: nat, hi: nat)
    requires 1 < p && p / 2 < hi <= |ys|
    ensures (hi - 1) % p == ph ==>
              && PhaseSum(ys, p, ph, hi) == PhaseSum(ys, p, ph, hi - 1) + DetrendedAt(ys, p, hi - 1)
              && PhaseCount(p, ph, hi) == PhaseCount(p, ph, hi - 1) + 1
    ensures (hi - 1) % p != ph ==>
              PhaseSum(ys, p, ph, hi) == PhaseSum(ys, p, ph, hi - 1) && PhaseCount(p, ph, hi) == PhaseCount(p, ph, hi - 1)
  {
    hide DetrendedAt;
  }

  lemma ShareStep(ys: seq<real>, p: nat, ph: nat, hi: nat)
    requires 1 < p && 2 * p <= |ys| && ph < p && p / 2 < hi <= |ys| - p / 2
    ensures (hi - 1) % p == ph ==>
              && Share(Residual(ys, p), p, ph, hi)
                 == Share(Residual(ys, p), p, ph, hi - 1) + (DetrendedAt(ys, p, hi - 1) - PeriodMeans(ys, p)[ph])
              && Inner(|ys|, p, ph, hi) == Inner(|ys|, p, ph, hi - 1) + 1
    ensures (hi - 1) % p != ph ==>
              && Share(Residual(ys, p), p, ph, hi) == Share(Residual(ys, p), p, ph, hi - 1)
              && Inner(|ys|, p, ph, hi) == Inner(|ys|, p, ph, hi - 1)
  {
    hide Residual, DetrendedAt, PeriodMeans;
    ResidualHere(ys, p, hi - 1);
  }

  lemma OneMore(m: real, k: nat)
    ensures m * (k + 1) as real == m * k as real + m
  {
    assert (k + 1) as real == k as real + 1.0;
  }

  lemma {:induction false} ShareBehind(ys: seq<real>, p: nat, ph: nat, hi: nat)
    requires 1 < p && 2 * p <= |ys| && |ys| - p / 2 <= hi <= |ys|
    ensures Share(Residual(ys, p), p, ph, hi) == Share(Residual(ys, p), p, ph, |ys| - p / 2)
    ensures Inner(|ys|, p, ph, hi) == Inner(|ys|, p, ph, |ys| - p / 2)
    decreases hi
  {
    hide Residual;
    if hi > |ys| - p / 2 {
      ShareBehind(ys, p, ph, hi - 1);
      ResidualHere(ys, p, hi - 1);
    }
  }
}
