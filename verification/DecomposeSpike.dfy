// What a jump in the last value does to the decomposition of a series that it
// otherwise describes exactly: which residuals move, and by how much.

module DecomposeSpike {
  import opened Stats
  import opened Decompose

  // The series with d added to its last value.
  function Jump(ys: seq<real>, d: real): (r: seq<real>)
    requires ys != []
    ensures |r| == |ys| && forall i :: 0 <= i < |ys| ==> r[i] == ys[i] + if i == |ys| - 1 then d else 0.0
  {
    ys[|ys| - 1 := ys[|ys| - 1] + d]
  }

  // The part of the jump that reaches the trend: the last value lies in one
  // window of the last centre, which is half of the average for even periods.
  function Share(p: nat, d: real): real
    requires p > 0
  {
    if p % 2 == 1 then d / p as real else d / p as real / 2.0
  }

  function LastCentre(n: nat, p: nat): int {
    n - p / 2 - 1
  }

  // ---- The trend ----

  lemma DivideSum(x: real, y: real, n: real)
    requires n > 0.0
    ensures (x + y) / n == x / n + y / n
  {
    var q, r := x / n, y / n;
    assert x == q * n && y == r * n;
    assert x + y == (q + r) * n;
    Cancel(n, q + r);
  }

  lemma WindowJump(ys: seq<real>, d: real, p: nat, lo: nat)
    requires 0 < p && lo + p <= |ys|
    ensures WindowMean(Jump(ys, d), p, lo) == WindowMean(ys, p, lo) + if lo + p == |ys| then d / p as real else 0.0
  {
    hide Sum;
    var zs, n := Jump(ys, d), |ys|;
    if lo + p < n {
      assert zs[lo..lo + p] == ys[lo..lo + p];
    } else {
      assert zs[lo..n] == ys[lo..n - 1] + [ys[n - 1] + d] && ys[lo..n] == ys[lo..n - 1] + [ys[n - 1]];
      SumSnoc(ys[lo..n - 1], ys[n - 1] + d);
      SumSnoc(ys[lo..n - 1], ys[n - 1]);
      DivideSum(Sum(ys[lo..n]), d, p as real);
    }
  }

  lemma TrendJump(ys: seq<real>, d: real, p: nat, i: nat)
    requires 1 < p && Centre(|ys|, p, i)
    ensures TrendAt(Jump(ys, d), p, i) == TrendAt(ys, p, i) + if i == LastCentre(|ys|, p) then Share(p, d) else 0.0
  {
    hide WindowMean, TrendAt;
    var half := p / 2;
    TrendCases(ys, p, i);
    TrendCases(Jump(ys, d), p, i);
    WindowJump(ys, d, p, i - half);
    if p % 2 == 0 {
      WindowJump(ys, d, p, i - half + 1);
    }
  }

  // ---- The season ----

  // The pattern at every centre, less what the jump takes from the last one.
  lemma DetrendedJump(ys: seq<real>, a: real, b: real, s: seq<real>, d: real, i: nat)
    requires Pattern(ys, a, b, s) && |s| > 1 && Sum(s) == 0.0 && Centre(|ys|, |s|, i)
    ensures DetrendedAt(Jump(ys, d), |s|, i) == s[Phase(i, |s|)] - if i == LastCentre(|ys|, |s|) then Share(|s|, d) else 0.0
  {
    hide TrendAt, Sum, Phase, LineAt, Share;
    TrendJump(ys, d, |s|, i);
    PatternTrend(ys, a, b, s, i);
  }

  lemma {:induction false} PhaseSumJump(ys: seq<real>, a: real, b: real, s: seq<real>, d: real, ph: nat, hi: nat)
    requires Pattern(ys, a, b, s) && |s| > 1 && Sum(s) == 0.0 && 2 * |s| <= |ys| && ph < |s|
    requires |s| / 2 <= hi <= |ys| - |s| / 2
    ensures PhaseSum(Jump(ys, d), |s|, ph, hi) == Times(PhaseCount(|s|, ph, hi), s[ph])
         - if hi > LastCentre(|ys|, |s|) && ph == Phase(hi - 1, |s|) then Share(|s|, d) else 0.0
    decreases hi
  {
    hide Phase, TrendAt, Sum, LineAt, Times, DetrendedAt, Share, Pattern;
    var p := |s|;
    CountStep(0, s[ph]);
    if hi > p / 2 {
      PhaseSumJump(ys, a, b, s, d, ph, hi - 1);
      DetrendedJump(ys, a, b, s, d, hi - 1);
      CountStep(PhaseCount(p, ph, hi - 1), s[ph]);
    }
  }

  // What the phase of the last centre loses in the mean.
  function Loss(n: nat, p: nat, d: real): real
    requires 1 < p && 2 * p <= n
  {
    var c := PhaseCount(p, Phase(LastCentre(n, p), p), n - p / 2);
    if c > 0 then Share(p, d) / c as real else 0.0
  }

  lemma RawMeanJump(ys: seq<real>, a: real, b: real, s: seq<real>, d: real, ph: nat)
    requires Pattern(ys, a, b, s) && |s| > 1 && Sum(s) == 0.0 && 2 * |s| <= |ys| && ph < |s|
    ensures RawMean(Jump(ys, d), |s|, ph)
         == s[ph] - if ph == Phase(LastCentre(|ys|, |s|), |s|) then Loss(|ys|, |s|, d) else 0.0
  {
    hide PhaseSum, PhaseCount, Sum, Times, LineAt, Phase, Share, Pattern;
    var p, hi := |s|, |ys| - |s| / 2;
    EveryPhaseOccurs(p, ph, |ys|);
    PhaseSumJump(ys, a, b, s, d, ph, hi);
    var c := PhaseCount(p, ph, hi);
    CancelCount(c, s[ph]);
    DivideSum(Times(c, s[ph]) - Share(p, d), Share(p, d), c as real);
  }

  lemma {:induction false} SumUpdate(xs: seq<real>, i: nat, x: real)
    requires i < |xs|
    ensures Sum(xs[i := x]) == Sum(xs) - xs[i] + x
  {
    var k := |xs| - 1;
    if i < k {
      SumUpdate(xs[..k], i, x);
      assert xs[i := x][..k] == xs[..k][i := x];
    } else {
      assert xs[i := x][..k] == xs[..k];
    }
  }

  lemma PeriodMeansJump(ys: seq<real>, a: real, b: real, s: seq<real>, d: real, ph: nat)
    requires Pattern(ys, a, b, s) && |s| > 1 && Sum(s) == 0.0 && 2 * |s| <= |ys| && ph < |s|
    ensures var u := Loss(|ys|, |s|, d);
            PeriodMeans(Jump(ys, d), |s|)[ph] ==
            s[ph] - (if ph == Phase(LastCentre(|ys|, |s|), |s|) then u else 0.0) + u / |s| as real
  {
    hide RawMean, Sum, Phase, Loss, Pattern;
    var p, u, f := |s|, Loss(|ys|, |s|, d), Phase(LastCentre(|ys|, |s|), |s|);
    var raw := RawMeans(Jump(ys, d), p);
    forall k | 0 <= k < p ensures raw[k] == s[f := s[f] - u][k] {
      RawMeanJump(ys, a, b, s, d, k);
    }
    assert raw == s[f := s[f] - u];
    SumUpdate(s, f, s[f] - u);
    DivideSum(-u, u, p as real);
  }

  // ---- The residuals ----

  // A common offset for all phases but the last centre's, which is off by u,
  // and the last centre itself, which has absorbed part of the jump.
  lemma ResidualJump(ys: seq<real>, a: real, b: real, s: seq<real>, d: real, i: nat)
    requires Pattern(ys, a, b, s) && |s| > 1 && Sum(s) == 0.0 && 2 * |s| <= |ys| && Centre(|ys|, |s|, i)
    ensures var p, u := |s|, Loss(|ys|, |s|, d);
            ResidualAt(Jump(ys, d), p, i) ==
            -(u / p as real)
            + (if Phase(i, p) == Phase(LastCentre(|ys|, p), p) then u else 0.0)
            - (if i == LastCentre(|ys|, p) then Share(p, d) else 0.0)
  {
    hide TrendAt, PeriodMeans, Sum, Phase, Loss, Share, Pattern;
    DetrendedJump(ys, a, b, s, d, i);
    PeriodMeansJump(ys, a, b, s, d, Phase(i, |s|));
  }

  // ---- Counting phases ----

  lemma DifferentPhases(i: nat, g: nat, p: nat)
    requires 0 < g < p
    ensures Phase(i + g, p) != Phase(i, p)
  {
    var q, r := i / p, i % p;
    assert i == q * p + r;
    if r + g < p {
      RemainderUnique(i + g, p, q, r + g);
    } else {
      Distribute(q, p);
      RemainderUnique(i + g, p, q + 1, r + g - p);
    }
  }

  // At most one of three neighbours has a given phase.
  lemma {:induction false} CountAThird(p: nat, ph: nat, hi: nat)
    requires 3 <= p && p / 2 <= hi
    ensures 3 * PhaseCount(p, ph, hi) <= hi - p / 2 + 2
    decreases hi
  {
    hide Phase, PhaseCount;
    if hi == p / 2 {
      CountOn(p, ph, hi);
    } else {
      CountOn(p, ph, hi - 1);
      if hi > p / 2 + 1 {
        CountOn(p, ph, hi - 2);
        DifferentPhases(hi - 2, 1, p);
      }
      if hi > p / 2 + 2 {
        CountOn(p, ph, hi - 3);
        DifferentPhases(hi - 3, 1, p);
        DifferentPhases(hi - 3, 2, p);
        CountAThird(p, ph, hi - 3);
      }
    }
  }

  lemma CountOn(p: nat, ph: nat, hi: nat)
    requires 1 < p && p / 2 <= hi
    ensures PhaseCount(p, ph, hi + 1) == PhaseCount(p, ph, hi) + if Phase(hi, p) == ph then 1 else 0
    ensures PhaseCount(p, ph, p / 2) == 0
  {
    hide Phase;
  }

  // With period two the phase of the last index has half of them, rounded up.
  lemma {:induction false} CountHalf(hi: nat)
    requires 1 < hi
    ensures hi - 1 <= 2 * PhaseCount(2, Phase(hi - 1, 2), hi) <= hi
    decreases hi
  {
    hide Phase;
    if hi >= 4 {
      CountHalf(hi - 2);
      PhasePeriodic(hi - 3, 2);
      DifferentPhases(hi - 2, 1, 2);
    } else if hi == 3 {
      DifferentPhases(1, 1, 2);
    }
  }

  // ---- Counting equal residuals ----

  // Values that are x, or x + u at the indices of one phase.
  ghost predicate TwoValued(rs: seq<real>, x: real, u: real, p: nat, ph: nat)
    requires 1 < p
  {
    forall j :: 0 <= j < |rs| ==> rs[j] == x + if Phase(p / 2 + j, p) == ph then u else 0.0
  }

  lemma {:induction false} TwoValuedCount(rs: seq<real>, x: real, u: real, p: nat, ph: nat, y: real)
    requires 1 < p && u != 0.0 && TwoValued(rs, x, u, p, ph)
    ensures var c := PhaseCount(p, ph, p / 2 + |rs|);
            Inside(rs, y, y) == (if y == x then |rs| - c else 0) + if y == x + u then c else 0
    decreases |rs|
  {
    hide Phase;
    if rs != [] {
      var k := |rs| - 1;
      TwoValuedCount(rs[..k], x, u, p, ph, y);
    }
  }

  // The residuals at the centres after a jump.
  ghost predicate JumpResiduals(rs: seq<real>, n: nat, p: nat, d: real)
    requires 1 < p && 4 * p <= n
  {
    && |rs| == n - 2 * (p / 2)
    && forall j :: 0 <= j < |rs| ==>
         var u := Loss(n, p, d);
         rs[j] == -(u / p as real)
                  + (if Phase(p / 2 + j, p) == Phase(LastCentre(n, p), p) then u else 0.0)
                  - (if p / 2 + j == LastCentre(n, p) then Share(p, d) else 0.0)
  }

  // All but the last of them are two-valued; how often each value occurs.
  lemma JumpCounts(rs: seq<real>, n: nat, p: nat, d: real, y: real)
    requires 1 < p && 4 * p <= n && JumpResiduals(rs, n, p, d) && Loss(n, p, d) != 0.0
    ensures var u, c := Loss(n, p, d), PhaseCount(p, Phase(LastCentre(n, p), p), n - p / 2);
            var x := -(u / p as real);
            && c > 0
            && Inside(rs, y, y) == (if y == x then |rs| - c else 0) + (if y == x + u then c - 1 else 0)
                                   + if y == x + u - Share(p, d) then 1 else 0
  {
    hide Phase, Loss, Share;
    var u, ph, k := Loss(n, p, d), Phase(LastCentre(n, p), p), |rs| - 1;
    var x := -(u / p as real);
    assert p / 2 + k == LastCentre(n, p);
    TwoValuedCount(rs[..k], x, u, p, ph, y);
    assert rs[k] == x + u - Share(p, d);
  }

  lemma LossOf(n: nat, p: nat, d: real)
    requires 1 < p && 4 * p <= n
    ensures var c := PhaseCount(p, Phase(LastCentre(n, p), p), n - p / 2);
            c > 0 && Share(p, d) == Loss(n, p, d) * c as real && (Loss(n, p, d) == 0.0 <==> d == 0.0)
  {
    hide Phase, PhaseCount;
    EveryPhaseOccurs(p, Phase(LastCentre(n, p), p), n);
    ShareZero(p, d);
    var c := PhaseCount(p, Phase(LastCentre(n, p), p), n - p / 2);
    QuotientZero(Share(p, d), c as real);
  }

  lemma QuotientZero(x: real, n: real)
    requires n > 0.0
    ensures x / n * n == x && (x / n == 0.0 <==> x == 0.0)
  {
  }

  lemma ShareZero(p: nat, d: real)
    requires p > 0
    ensures Share(p, d) == 0.0 <==> d == 0.0
  {
    QuotientZero(d, p as real);
  }

  // With a period of three or more the common offset has a majority.
  lemma LongPeriodCoincides(rs: seq<real>, n: nat, p: nat, d: real)
    requires 3 <= p && 4 * p <= n && JumpResiduals(rs, n, p, d) && d != 0.0
    ensures MajorityCoincides(rs)
  {
    hide Phase, Loss, Share, PhaseCount, Inside, JumpResiduals;
    LossOf(n, p, d);
    var x := -(Loss(n, p, d) / p as real);
    JumpCounts(rs, n, p, d, x);
    CountAThird(p, Phase(LastCentre(n, p), p), n - p / 2);
    assert |rs| == n - 2 * (p / 2) by { JumpLength(rs, n, p, d); }
    assert 2 * Inside(rs, x, x) > |rs|;
  }

  lemma JumpLength(rs: seq<real>, n: nat, p: nat, d: real)
    requires 1 < p && 4 * p <= n && JumpResiduals(rs, n, p, d)
    ensures |rs| == n - 2 * (p / 2)
  {
  }

  // With period two no value does.
  lemma PeriodTwoDiffers(rs: seq<real>, n: nat, d: real)
    requires 8 <= n && JumpResiduals(rs, n, 2, d) && d != 0.0
    ensures !MajorityCoincides(rs)
  {
    hide Phase, Loss, Share, PhaseCount, Inside, JumpResiduals;
    LossOf(n, 2, d);
    JumpLength(rs, n, 2, d);
    var u, c := Loss(n, 2, d), PhaseCount(2, Phase(LastCentre(n, 2), 2), n - 1);
    CountHalf(n - 1);
    assert LastCentre(n, 2) == n - 2;
    ThreeValues(u, c);
    forall y ensures 2 * Inside(rs, y, y) <= |rs| {
      JumpCounts(rs, n, 2, d, y);
    }
  }

  lemma ThreeValues(u: real, c: nat)
    requires u != 0.0 && c >= 2
    ensures u * c as real != u && u * c as real != 0.0
  {
    var m := (c - 1) as real;
    assert u * c as real == u * m + u;
    assert m > 0.0;
  }
}
