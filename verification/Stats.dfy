// Sums, means, the median and the median absolute deviation
// (pkg/anomaly/stl.go and holtwinters.go), over exact reals.

module Stats {
  import opened Sorting

  function Sum(xs: seq<real>): real {
    if xs == [] then 0.0 else Sum(xs[..|xs| - 1]) + xs[|xs| - 1]
  }

  lemma SumSnoc(xs: seq<real>, x: real)
    ensures Sum(xs + [x]) == Sum(xs) + x
  {
    assert (xs + [x])[..|xs|] == xs;
  }

  lemma SumTake(xs: seq<real>, i: nat)
    requires i < |xs|
    ensures Sum(xs[..i + 1]) == Sum(xs[..i]) + xs[i]
  {
    assert xs[..i + 1] == xs[..i] + [xs[i]];
    SumSnoc(xs[..i], xs[i]);
  }

  lemma {:induction false} SumAppend(xs: seq<real>, ys: seq<real>)
    ensures Sum(xs + ys) == Sum(xs) + Sum(ys)
  {
    if ys == [] {
      assert xs + ys == xs;
    } else {
      var k := |ys| - 1;
      SumAppend(xs, ys[..k]);
      assert (xs + ys)[..|xs| + k] == xs + ys[..k];
    }
  }

  function Mean(xs: seq<real>): real {
    if xs == [] then 0.0 else Sum(xs) / |xs| as real
  }

  method ComputeMean(xs: seq<real>) returns (m: real)
    ensures m == Mean(xs)
  {
    if |xs| == 0 {
      return 0.0;
    }
    var s := 0.0;
    for i := 0 to |xs|
      invariant s == Sum(xs[..i])
    {
      SumTake(xs, i);
      s := s + xs[i];
    }
    assert xs[..|xs|] == xs;
    return s / |xs| as real;
  }

  function Abs(x: real): real {
    if x < 0.0 then -x else x
  }

  // ---- Median and MAD ----

  function Median(xs: seq<real>): real {
    Middle(Sort(xs, RealLeq))
  }

  // The middle of a sorted sequence, or the mean of its two middles.
  function Middle(s: seq<real>): real {
    var n := |s|;
    if n == 0 then 0.0
    else if n % 2 == 1 then s[n / 2]
    else (s[n / 2 - 1] + s[n / 2]) / 2.0
  }

  function Deviations(xs: seq<real>, m: real): (ds: seq<real>)
    ensures |ds| == |xs|
    ensures forall i :: 0 <= i < |xs| ==> ds[i] == Abs(xs[i] - m)
  {
    seq(|xs|, i requires 0 <= i < |xs| => Abs(xs[i] - m))
  }

  function MAD(xs: seq<real>): real {
    if xs == [] then 0.0 else Median(Deviations(xs, Median(xs)))
  }

  method ComputeMedian(xs: seq<real>) returns (m: real)
    ensures m == Median(xs)
  {
    var n := |xs|;
    if n == 0 {
      return 0.0;
    }
    var sorted := Sort(xs, RealLeq);
    if n % 2 == 1 {
      return sorted[n / 2];
    }
    return (sorted[n / 2 - 1] + sorted[n / 2]) / 2.0;
  }

  method ComputeMAD(xs: seq<real>) returns (m: real)
    ensures m == MAD(xs)
  {
    if |xs| == 0 {
      return 0.0;
    }
    var med := ComputeMedian(xs);
    var abs := new real[|xs|];
    for i := 0 to |xs|
      invariant forall j :: 0 <= j < i ==> abs[j] == Abs(xs[j] - med)
    {
      var d := xs[i] - med;
      if d < 0.0 {
        d := -d;
      }
      abs[i] := d;
    }
    assert abs[..] == Deviations(xs, med);
    m := ComputeMedian(abs[..]);
  }

  lemma RealOrder()
    ensures TotalOrder(RealLeq) && Antisymmetric(RealLeq)
  {
  }

  // Twice the median is the sum of the middle values of any ascending
  // rearrangement, for an odd number of values one value twice.
  lemma MedianIsMiddle(xs: seq<real>, s: seq<real>)
    requires xs != [] && multiset(s) == multiset(xs)
    requires forall i, j :: 0 <= i < j < |s| ==> s[i] <= s[j]
    ensures |s| == |xs| && 2.0 * Median(xs) == s[(|xs| - 1) / 2] + s[|xs| / 2]
  {
    hide Sort;
    RealOrder();
    SortSorts(xs, RealLeq);
    SameElements(s, xs);
    SortedUnique(Sort(xs, RealLeq), s, RealLeq);
  }

  // The MAD is the median of the distances from the median.
  lemma MADIsMiddle(xs: seq<real>, ds: seq<real>, s: seq<real>)
    requires xs != [] && |ds| == |xs|
    requires forall i :: 0 <= i < |xs| ==>
               ds[i] == if xs[i] < Median(xs) then Median(xs) - xs[i] else xs[i] - Median(xs)
    requires multiset(s) == multiset(ds) && forall i, j :: 0 <= i < j < |s| ==> s[i] <= s[j]
    ensures |s| == |xs| && 2.0 * MAD(xs) == s[(|xs| - 1) / 2] + s[|xs| / 2]
  {
    hide Median;
    assert ds == Deviations(xs, Median(xs));
    MedianIsMiddle(ds, s);
  }

  // ---- Breakdown: a majority decides ----

  function Inside(xs: seq<real>, lo: real, hi: real): nat {
    if xs == [] then 0
    else Inside(xs[..|xs| - 1], lo, hi) + if lo <= xs[|xs| - 1] <= hi then 1 else 0
  }

  lemma {:induction false} InsideAppend(xs: seq<real>, ys: seq<real>, lo: real, hi: real)
    ensures Inside(xs + ys, lo, hi) == Inside(xs, lo, hi) + Inside(ys, lo, hi)
  {
    if ys == [] {
      assert xs + ys == xs;
    } else {
      var k := |ys| - 1;
      InsideAppend(xs, ys[..k], lo, hi);
      assert (xs + ys)[..|xs| + k] == xs + ys[..k];
    }
  }

  predicate Outside(xs: seq<real>, lo: real, hi: real) {
    forall i :: 0 <= i < |xs| ==> xs[i] < lo || hi < xs[i]
  }

  lemma {:induction false} InsideBound(xs: seq<real>, lo: real, hi: real)
    ensures Inside(xs, lo, hi) <= |xs|
    ensures Outside(xs, lo, hi) ==> Inside(xs, lo, hi) == 0
  {
    if xs != [] {
      InsideBound(xs[..|xs| - 1], lo, hi);
    }
  }

  lemma {:induction false} InsidePermuted(xs: seq<real>, ys: seq<real>, lo: real, hi: real)
    requires multiset(xs) == multiset(ys)
    ensures Inside(xs, lo, hi) == Inside(ys, lo, hi)
    decreases |xs|
  {
    if xs != [] {
      var a, b := TakeOut(xs, ys);
      InsidePermuted(xs[1..], a + b, lo, hi);
      assert xs == [xs[0]] + xs[1..];
      InsideAppend([xs[0]], xs[1..], lo, hi);
      InsideAppend(a, [xs[0]] + b, lo, hi);
      InsideAppend([xs[0]], b, lo, hi);
      InsideAppend(a, b, lo, hi);
    }
  }

  // In a sorted sequence with a majority in [lo, hi], the middle entries are too.
  lemma MiddleInside(s: seq<real>, lo: real, hi: real, k: nat)
    requires Sorted(s, RealLeq) && 2 * Inside(s, lo, hi) > |s|
    requires k < |s| && |s| / 2 - 1 <= k <= |s| / 2
    requires k == |s| / 2 - 1 ==> |s| % 2 == 0
    ensures lo <= s[k] <= hi
  {
    if s[k] < lo {
      LowSide(s, lo, hi, k);
    } else if hi < s[k] {
      HighSide(s, lo, hi, k);
    }
  }

  lemma LowSide(s: seq<real>, lo: real, hi: real, k: nat)
    requires Sorted(s, RealLeq) && k < |s| && s[k] < lo
    ensures Inside(s, lo, hi) <= |s| - k - 1
  {
    hide Inside;
    var low, high := s[..k + 1], s[k + 1..];
    assert s == low + high;
    forall i | 0 <= i < |low| ensures low[i] < lo {
      assert i == k || RealLeq(s[i], s[k]);
    }
    InsideAppend(low, high, lo, hi);
    InsideBound(low, lo, hi);
    InsideBound(high, lo, hi);
  }

  lemma HighSide(s: seq<real>, lo: real, hi: real, k: nat)
    requires Sorted(s, RealLeq) && k < |s| && hi < s[k]
    ensures Inside(s, lo, hi) <= k
  {
    hide Inside;
    var low, high := s[..k], s[k..];
    assert s == low + high;
    forall i | 0 <= i < |high| ensures hi < high[i] {
      assert i == 0 || RealLeq(s[k], s[k + i]);
    }
    InsideAppend(low, high, lo, hi);
    InsideBound(low, lo, hi);
    InsideBound(high, lo, hi);
  }

  // If more than half of the entries lie in [lo, hi], so does the median,
  // whatever the others are.
  lemma MedianBreakdown(xs: seq<real>, lo: real, hi: real)
    requires 2 * Inside(xs, lo, hi) > |xs|
    ensures lo <= Median(xs) <= hi
  {
    var s := Sort(xs, RealLeq);
    RealOrder();
    SortSorts(xs, RealLeq);
    InsidePermuted(xs, s, lo, hi);
    InsideBound(xs, lo, hi);
    MiddleInside(s, lo, hi, |s| / 2);
    if |s| % 2 == 0 {
      MiddleInside(s, lo, hi, |s| / 2 - 1);
    }
  }

  lemma {:induction false} DeviationsInside(xs: seq<real>, m: real, lo: real, hi: real)
    requires lo <= m <= hi
    ensures Inside(Deviations(xs, m), 0.0, hi - lo) >= Inside(xs, lo, hi)
  {
    if xs != [] {
      var k := |xs| - 1;
      DeviationsInside(xs[..k], m, lo, hi);
      assert Deviations(xs, m)[..k] == Deviations(xs[..k], m);
    }
  }

  // ... and the MAD is at most the width of that interval.
  lemma MADBreakdown(xs: seq<real>, lo: real, hi: real)
    requires 2 * Inside(xs, lo, hi) > |xs|
    ensures 0.0 <= MAD(xs) <= hi - lo
  {
    hide Inside, Median;
    var m := Median(xs);
    MedianBreakdown(xs, lo, hi);
    DeviationsInside(xs, m, lo, hi);
    MedianBreakdown(Deviations(xs, m), 0.0, hi - lo);
  }

  lemma MADNonNegative(xs: seq<real>)
    ensures MAD(xs) >= 0.0
  {
    if xs != [] {
      MedianNonNegative(Deviations(xs, Median(xs)));
    }
  }

  lemma MedianNonNegative(ds: seq<real>)
    requires forall i :: 0 <= i < |ds| ==> ds[i] >= 0.0
    ensures Median(ds) >= 0.0
  {
    hide Sort;
    var s := Sort(ds, RealLeq);
    SameElements(ds, s);
    forall i | 0 <= i < |s| ensures s[i] >= 0.0 {
      assert s[i] in ds;
    }
  }

  // ---- When the MAD is zero ----

  lemma {:induction false} ExactDeviations(xs: seq<real>, m: real)
    ensures Inside(Deviations(xs, m), 0.0, 0.0) == Inside(xs, m, m)
  {
    if xs != [] {
      var k := |xs| - 1;
      ExactDeviations(xs[..k], m);
      assert Deviations(xs, m)[..k] == Deviations(xs[..k], m);
    }
  }

  // Everything up to a zero of a sorted sequence without negatives is zero.
  lemma ZerosInFront(s: seq<real>, k: nat)
    requires Sorted(s, RealLeq) && k < |s| && s[k] == 0.0 && forall i :: 0 <= i < |s| ==> s[i] >= 0.0
    ensures Inside(s, 0.0, 0.0) > k
  {
    hide Inside;
    var low := s[..k + 1];
    assert s == low + s[k + 1..];
    forall i | 0 <= i < |low| ensures low[i] == 0.0 {
      assert i == k || RealLeq(s[i], s[k]);
    }
    AllInside(low);
    InsideAppend(low, s[k + 1..], 0.0, 0.0);
  }

  lemma ZeroMiddle(s: seq<real>)
    requires s != [] && forall i :: 0 <= i < |s| ==> s[i] >= 0.0
    requires Middle(s) == 0.0
    ensures s[|s| / 2] == 0.0
  {
  }

  lemma ZeroMedian(ds: seq<real>)
    requires ds != [] && (forall i :: 0 <= i < |ds| ==> ds[i] >= 0.0) && Median(ds) == 0.0
    ensures 2 * Inside(ds, 0.0, 0.0) > |ds|
  {
    hide Sort, Inside, Middle;
    var s := Sort(ds, RealLeq);
    RealOrder();
    SortSorts(ds, RealLeq);
    SameElements(ds, s);
    forall i | 0 <= i < |s| ensures s[i] >= 0.0 {
      assert s[i] in ds;
    }
    ZeroMiddle(s);
    ZerosInFront(s, |s| / 2);
    InsidePermuted(ds, s, 0.0, 0.0);
  }

  // More than half of the values are equal.
  ghost predicate MajorityCoincides(xs: seq<real>) {
    exists x :: 2 * Inside(xs, x, x) > |xs|
  }

  lemma MADZeroIff(xs: seq<real>)
    ensures MAD(xs) == 0.0 <==> xs == [] || MajorityCoincides(xs)
  {
    hide Inside, Median;
    if MajorityCoincides(xs) {
      var x :| 2 * Inside(xs, x, x) > |xs|;
      MADBreakdown(xs, x, x);
    }
    if xs != [] && MAD(xs) == 0.0 {
      var m := Median(xs);
      ZeroMedian(Deviations(xs, m));
      ExactDeviations(xs, m);
    }
  }

  // ---- Affine changes ----

  function Aff(k: real, c: real, x: real): real {
    k * x + c
  }

  function Affine(k: real, c: real, xs: seq<real>): (ys: seq<real>)
    ensures |ys| == |xs|
    ensures forall i :: 0 <= i < |xs| ==> ys[i] == Aff(k, c, xs[i])
  {
    seq(|xs|, i requires 0 <= i < |xs| => Aff(k, c, xs[i]))
  }

  lemma {:induction false} SumAffine(k: real, c: real, xs: seq<real>)
    ensures Sum(Affine(k, c, xs)) == k * Sum(xs) + c * |xs| as real
  {
    if xs != [] {
      var m := |xs| - 1;
      SumAffine(k, c, xs[..m]);
      assert Affine(k, c, xs)[..m] == Affine(k, c, xs[..m]);
      SumAffineStep(k, c, Sum(xs[..m]), xs[m], m as real);
      assert |xs| as real == m as real + 1.0;
    }
  }

  lemma SumAffineStep(k: real, c: real, s: real, x: real, m: real)
    ensures k * s + c * m + Aff(k, c, x) == k * (s + x) + c * (m + 1.0)
  {
  }

  lemma MeanAffine(k: real, c: real, xs: seq<real>)
    requires xs != []
    ensures Mean(Affine(k, c, xs)) == Aff(k, c, Mean(xs))
  {
    SumAffine(k, c, xs);
    DivideAffine(k, c, Sum(xs), |xs| as real);
  }

  // The one fact about division that products need.
  lemma Cancel(x: real, q: real)
    requires x > 0.0
    ensures (q * x) / x == q
  {
  }

  lemma Factor(k: real, q: real, c: real, n: real)
    ensures k * (q * n) + c * n == (k * q + c) * n
  {
  }

  lemma DivideAffine(k: real, c: real, s: real, n: real)
    requires n > 0.0
    ensures (k * s + c * n) / n == Aff(k, c, s / n)
  {
    var q := s / n;
    assert s == q * n;
    Factor(k, q, c, n);
    Cancel(n, k * q + c);
  }

  lemma {:induction false} AffinePermuted(k: real, c: real, xs: seq<real>, ys: seq<real>)
    requires multiset(xs) == multiset(ys)
    ensures multiset(Affine(k, c, xs)) == multiset(Affine(k, c, ys))
    decreases |xs|
  {
    hide Aff, Affine;
    if xs != [] {
      var a, b := TakeOut(xs, ys);
      var fx := Aff(k, c, xs[0]);
      AffinePermuted(k, c, xs[1..], a + b);
      assert xs == [] + ([xs[0]] + xs[1..]) && [] + xs[1..] == xs[1..];
      AffineParts(k, c, [], xs[0], xs[1..]);
      AffineParts(k, c, a, xs[0], b);
    }
  }

  lemma AffineParts(k: real, c: real, a: seq<real>, x: real, b: seq<real>)
    ensures multiset(Affine(k, c, a + ([x] + b))) == multiset(Affine(k, c, a + b)) + multiset{Aff(k, c, x)}
  {
    hide Aff;
    assert Affine(k, c, a + ([x] + b)) == Affine(k, c, a) + ([Aff(k, c, x)] + Affine(k, c, b));
    assert Affine(k, c, a + b) == Affine(k, c, a) + Affine(k, c, b);
    PartsMultiset(Affine(k, c, a), Aff(k, c, x), Affine(k, c, b));
  }

  function Reverse(xs: seq<real>): (ys: seq<real>)
    ensures |ys| == |xs| && forall i :: 0 <= i < |xs| ==> ys[i] == xs[|xs| - 1 - i]
  {
    if xs == [] then [] else [xs[|xs| - 1]] + Reverse(xs[..|xs| - 1])
  }

  lemma {:induction false} ReversePermutes(xs: seq<real>)
    ensures multiset(Reverse(xs)) == multiset(xs)
  {
    if xs != [] {
      ReversePermutes(xs[..|xs| - 1]);
      assert xs == xs[..|xs| - 1] + [xs[|xs| - 1]];
    }
  }

  lemma AffMonotone(k: real, c: real, x: real, y: real)
    requires x <= y
    ensures k >= 0.0 ==> Aff(k, c, x) <= Aff(k, c, y)
    ensures k <= 0.0 ==> Aff(k, c, y) <= Aff(k, c, x)
  {
  }

  // Sorting commutes with an affine change, up to reversal for a negative factor.
  lemma SortAffine(k: real, c: real, xs: seq<real>)
    ensures var t := Affine(k, c, Sort(xs, RealLeq));
            Sort(Affine(k, c, xs), RealLeq) == if k >= 0.0 then t else Reverse(t)
  {
    hide Aff, Sort;
    var s := Sort(xs, RealLeq);
    var t := Affine(k, c, s);
    var u := if k >= 0.0 then t else Reverse(t);
    RealOrder();
    SortSorts(xs, RealLeq);
    SortSorts(Affine(k, c, xs), RealLeq);
    AffinePermuted(k, c, s, xs);
    ReversePermutes(t);
    AffineSorted(k, c, s);
    SortedUnique(Sort(Affine(k, c, xs), RealLeq), u, RealLeq);
  }

  lemma AffineSorted(k: real, c: real, s: seq<real>)
    requires Sorted(s, RealLeq)
    ensures Sorted(if k >= 0.0 then Affine(k, c, s) else Reverse(Affine(k, c, s)), RealLeq)
  {
    hide Aff;
    var t := Affine(k, c, s);
    if k >= 0.0 {
      forall i, j | 0 <= i < j < |t| ensures RealLeq(t[i], t[j]) {
        AffMonotone(k, c, s[i], s[j]);
      }
    } else {
      var u := Reverse(t);
      forall i, j | 0 <= i < j < |u| ensures RealLeq(u[i], u[j]) {
        AffMonotone(k, c, s[|s| - 1 - j], s[|s| - 1 - i]);
      }
    }
  }

  lemma MedianAffine(k: real, c: real, xs: seq<real>)
    requires xs != []
    ensures Median(Affine(k, c, xs)) == Aff(k, c, Median(xs))
  {
    hide Aff, Sort;
    SortAffine(k, c, xs);
    MiddleAffine(k, c, Sort(xs, RealLeq));
  }

  lemma MiddleAffine(k: real, c: real, s: seq<real>)
    requires s != []
    ensures Middle(Affine(k, c, s)) == Aff(k, c, Middle(s))
    ensures Middle(Reverse(Affine(k, c, s))) == Aff(k, c, Middle(s))
  {
    hide Aff, Reverse;
    var n := |s|;
    if n % 2 == 0 {
      HalfAffine(k, c, s[n / 2 - 1], s[n / 2]);
    }
  }

  lemma HalfAffine(k: real, c: real, x: real, y: real)
    ensures (Aff(k, c, x) + Aff(k, c, y)) / 2.0 == Aff(k, c, (x + y) / 2.0)
  {
  }

  lemma AbsAffine(k: real, c: real, x: real, m: real)
    ensures Abs(Aff(k, c, x) - Aff(k, c, m)) == Aff(Abs(k), 0.0, Abs(x - m))
  {
    assert Aff(k, c, x) - Aff(k, c, m) == k * (x - m);
  }

  // The MAD ignores a shift and scales with the size of the factor.
  lemma MADAffine(k: real, c: real, xs: seq<real>)
    ensures MAD(Affine(k, c, xs)) == Abs(k) * MAD(xs)
  {
    hide Aff, Abs, Median;
    if xs == [] {
      assert Affine(k, c, xs) == [];
    } else {
      var m := Median(xs);
      var ds := Deviations(xs, m);
      MedianAffine(k, c, xs);
      DeviationsAffine(k, c, xs, m);
      MedianAffine(Abs(k), 0.0, ds);
      AffZero(Abs(k), Median(ds));
    }
  }

  lemma AffZero(k: real, x: real)
    ensures Aff(k, 0.0, x) == k * x
  {
  }

  lemma DeviationsAffine(k: real, c: real, xs: seq<real>, m: real)
    ensures Deviations(Affine(k, c, xs), Aff(k, c, m)) == Affine(Abs(k), 0.0, Deviations(xs, m))
  {
    hide Aff, Abs;
    forall i | 0 <= i < |xs|
      ensures Deviations(Affine(k, c, xs), Aff(k, c, m))[i] == Affine(Abs(k), 0.0, Deviations(xs, m))[i]
    {
      AbsAffine(k, c, xs[i], m);
    }
  }

  lemma MADOfZeros(xs: seq<real>)
    requires forall i :: 0 <= i < |xs| ==> xs[i] == 0.0
    ensures MAD(xs) == 0.0
  {
    MADNonNegative(xs);
    if xs != [] {
      AllInside(xs);
      MADBreakdown(xs, 0.0, 0.0);
    }
  }

  lemma {:induction false} AllInside(xs: seq<real>)
    requires forall i :: 0 <= i < |xs| ==> xs[i] == 0.0
    ensures Inside(xs, 0.0, 0.0) == |xs|
  {
    if xs != [] {
      AllInside(xs[..|xs| - 1]);
    }
  }

  // ---- Cycles ----

  // The index of t within its cycle.
  function Phase(t: nat, p: nat): (ph: nat)
    requires p > 0
    ensures ph < p
  {
    t % p
  }

  lemma PhasePeriodic(t: nat, p: nat)
    requires p > 0
    ensures Phase(t + p, p) == Phase(t, p)
    ensures t < p ==> Phase(t, p) == t
  {
    var q, r := t / p, t % p;
    assert t == q * p + r;
    Distribute(q, p);
    RemainderUnique(t + p, p, q + 1, r);
    if t < p {
      RemainderUnique(t, p, 0, t);
    }
  }

  lemma Distribute(q: int, p: int)
    ensures (q + 1) * p == q * p + p
  {
  }

  lemma RemainderUnique(x: nat, p: nat, q: nat, r: nat)
    requires r < p && x == q * p + r
    ensures x % p == r
  {
    var q', r' := x / p, x % p;
    assert x == q' * p + r';
    if q' < q {
      MultipleStep(q', q, p);
    } else if q < q' {
      MultipleStep(q, q', p);
    }
  }

  lemma MultipleStep(a: nat, b: nat, p: nat)
    requires a < b
    ensures a * p + p <= b * p
  {
    var c := b - a - 1;
    assert c * p >= 0;
    assert b * p == (a + 1 + c) * p == a * p + p + c * p;
  }

  // Every entry minus the mean.
  function Centred(xs: seq<real>): (r: seq<real>)
    ensures |r| == |xs| && forall i :: 0 <= i < |xs| ==> r[i] == xs[i] - Mean(xs)
  {
    seq(|xs|, i requires 0 <= i < |xs| => xs[i] - Mean(xs))
  }

  lemma SumShift(xs: seq<real>, m: real)
    ensures Sum(Affine(1.0, -m, xs)) == Sum(xs) - m * |xs| as real
  {
    SumAffine(1.0, -m, xs);
  }

  lemma ShiftIsAffine(xs: seq<real>, m: real)
    requires m == Mean(xs)
    ensures Centred(xs) == Affine(1.0, -m, xs)
  {
    hide Mean;
    forall i | 0 <= i < |xs| ensures Centred(xs)[i] == Affine(1.0, -m, xs)[i] {
    }
  }

  lemma CentredSumsToZero(xs: seq<real>)
    ensures Sum(Centred(xs)) == 0.0
  {
    hide Aff;
    if xs != [] {
      var m := Mean(xs);
      assert Sum(xs) == m * |xs| as real;
      SumShift(xs, m);
      ShiftIsAffine(xs, m);
    }
  }

  lemma AffDifference(k: real, c: real, x: real, y: real)
    ensures Aff(k, c, x) - Aff(k, 0.0, y) == Aff(k, c, x - y)
    ensures Aff(k, c, x) - Aff(k, c, y) == Aff(k, 0.0, x - y)
    ensures Aff(k, c, x) + Aff(k, 0.0, y) == Aff(k, c, x + y)
  {
  }

  lemma CentredAffine(k: real, c: real, xs: seq<real>)
    ensures Centred(Affine(k, c, xs)) == Affine(k, 0.0, Centred(xs))
  {
    if xs != [] {
      MeanAffine(k, c, xs);
      forall i | 0 <= i < |xs|
        ensures Centred(Affine(k, c, xs))[i] == Affine(k, 0.0, Centred(xs))[i]
      {
        AffDifference(k, c, xs[i], Mean(xs));
      }
    }
  }

  // What a zero-sum pattern contributes.
  lemma ZeroSum(s: seq<real>)
    requires Sum(s) == 0.0
    ensures Mean(s) == 0.0 && Centred(s) == s
  {
  }
}
