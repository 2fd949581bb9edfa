// Alerting over whole runs: when a burn alerts, how often, and when the two
// ways of storing the alert time agree.

module SloRuns {
  import opened Options
  import opened Slo

  datatype Tick = Tick(now: Time, calls: Calls)

  // One objective evaluated again and again from a given row.
  datatype Run = Run(rule: UpsertRule, cooldown: nat, o: Objective, start: Option<Row>, ticks: seq<Tick>) {
    function Row(k: nat): Option<Row>
      requires k <= |ticks|
    {
      if k == 0 then start
      else Evaluate(rule, cooldown, o, ticks[k - 1].now, ticks[k - 1].calls, Row(k - 1)).row
    }

    // The events tick k hands to the notifier.
    function Sent(k: nat): seq<BurnEvent>
      requires k < |ticks|
    {
      Evaluate(rule, cooldown, o, ticks[k].now, ticks[k].calls, Row(k)).sent
    }

    predicate Alerts(k: nat)
      requires k < |ticks|
    {
      Sent(k) != []
    }

    // All of them, through tick k - 1.
    function AllSent(k: nat): seq<BurnEvent>
      requires k <= |ticks|
    {
      if k == 0 then [] else AllSent(k - 1) + Sent(k - 1)
    }

    function Now(k: nat): Time
      requires k < |ticks|
    {
      ticks[k].now
    }

    predicate Readable() {
      forall k :: 0 <= k < |ticks| ==> ticks[k].calls.windows.Readable()
    }

    function StatusAt(k: nat): Status
      requires Readable() && k < |ticks|
    {
      StatusOf(o, ticks[k].calls.windows)
    }

    function StatusBefore(k: nat): Status
      requires k <= |ticks|
    {
      Loaded(o.id, Row(k)).status
    }

    // Nothing fails, and time moves forward.
    ghost predicate Smooth() {
      && Readable() && UrlAccepted(o.notifierUrl)
      && (forall k :: 0 <= k < |ticks| ==> ticks[k].now > 0 && ticks[k].calls.getOk && ticks[k].calls.notifyOk && ticks[k].calls.upsertOk)
      && (forall j, k :: 0 <= j < k < |ticks| ==> ticks[j].now < ticks[k].now)
    }

    // A maximal stretch a..b of one burning status.
    ghost predicate Block(a: nat, b: nat)
      requires Readable()
    {
      && a <= b < |ticks| && Burning(StatusAt(a)) && StatusBefore(a) != StatusAt(a)
      && forall k :: a <= k <= b ==> StatusAt(k) == StatusAt(a)
    }

    // The latest alert in a..k, for a block that starts at a.
    function LatestAlert(a: nat, k: nat): (j: nat)
      requires a <= k < |ticks|
      ensures a <= j <= k
      decreases k
    {
      if k == a || Alerts(k) then k else LatestAlert(a, k - 1)
    }

    function AlertCount(a: nat, k: nat): nat
      requires a <= k < |ticks|
      decreases k
    {
      (if Alerts(k) then 1 else 0) + if k == a then 0 else AlertCount(a, k - 1)
    }
  }

  // ---- One step ----

  // A step on which nothing fails: the row afterwards holds the status and,
  // while burning, the time of the latest alert.
  lemma SmoothStep(rule: UpsertRule, cooldown: nat, o: Objective, now: Time, c: Calls, row: Option<Row>)
    requires c.windows.Readable() && c.getOk && c.notifyOk && c.upsertOk && UrlAccepted(o.notifierUrl) && now > 0
    ensures var eff := Evaluate(rule, cooldown, o, now, c, row);
            var prev, status := Loaded(o.id, row), StatusOf(o, c.windows);
            && eff.row.Some? && eff.row.value.status == status
            && (eff.sent != [] <==> Due(cooldown, status, prev, now))
            && (Burning(status) ==>
                  eff.row.value.alertedAt == Some(if Due(cooldown, status, prev, now) then now else prev.alertedAt))
  {
    hide StatusOf, EventOf, Burn;
  }

  lemma RunStep(r: Run, k: nat)
    requires r.Smooth() && k < |r.ticks|
    ensures r.Row(k + 1).Some? && r.StatusBefore(k + 1) == r.StatusAt(k)
    ensures r.Alerts(k) <==> Due(r.cooldown, r.StatusAt(k), Loaded(r.o.id, r.Row(k)), r.Now(k))
    ensures Burning(r.StatusAt(k)) ==>
              Loaded(r.o.id, r.Row(k + 1)).alertedAt == if r.Alerts(k) then r.Now(k) else Loaded(r.o.id, r.Row(k)).alertedAt
  {
    hide StatusOf, Evaluate, Due;
    SmoothStep(r.rule, r.cooldown, r.o, r.ticks[k].now, r.ticks[k].calls, r.Row(k));
  }

  // ---- Blocks ----

  // Within a block the row remembers the latest alert of the block.
  lemma {:induction false} BlockRemembers(r: Run, a: nat, b: nat, k: nat)
    requires r.Smooth() && r.Block(a, b) && a <= k <= b
    ensures r.Alerts(a)
    ensures r.StatusBefore(k + 1) == r.StatusAt(a)
    ensures Loaded(r.o.id, r.Row(k + 1)).alertedAt == r.Now(r.LatestAlert(a, k))
    decreases k
  {
    hide StatusOf, Evaluate;
    RunStep(r, a);
    if k > a {
      BlockRemembers(r, a, b, k - 1);
      RunStep(r, k);
    }
  }

  lemma BlockAlertsAt(r: Run, a: nat, b: nat, k: nat)
    requires r.Smooth() && r.Block(a, b) && a < k <= b
    ensures r.Alerts(k) <==> r.Now(k) - r.Now(r.LatestAlert(a, k - 1)) >= r.cooldown
  {
    hide StatusOf, Evaluate;
    BlockRemembers(r, a, b, k - 1);
    RunStep(r, k);
  }

  // A block alerts on its first evaluation, and after that exactly when the
  // cooldown has passed since its latest alert.
  lemma BlockAlerts(r: Run, a: nat, b: nat)
    requires r.Smooth() && r.Block(a, b)
    ensures r.Alerts(a)
    ensures forall k :: a < k <= b ==> (r.Alerts(k) <==> r.Now(k) - r.Now(r.LatestAlert(a, k - 1)) >= r.cooldown)
  {
    hide StatusOf, Evaluate;
    BlockRemembers(r, a, b, a);
    forall k | a < k <= b
      ensures r.Alerts(k) <==> r.Now(k) - r.Now(r.LatestAlert(a, k - 1)) >= r.cooldown
    {
      BlockAlertsAt(r, a, b, k);
    }
  }

  // Consecutive alerts i < j of a block are at least a cooldown apart, and
  // less than a cooldown plus the largest gap between evaluations.
  lemma AlertGaps(r: Run, a: nat, b: nat, i: nat, j: nat, gap: nat)
    requires r.Smooth() && r.Block(a, b) && r.cooldown > 0
    requires a <= i < j <= b && r.Alerts(i) && r.Alerts(j) && forall k :: i < k < j ==> !r.Alerts(k)
    requires forall k :: a < k <= b ==> r.Now(k) - r.Now(k - 1) <= gap
    ensures r.cooldown <= r.Now(j) - r.Now(i) < r.cooldown + gap
  {
    hide StatusOf, Evaluate;
    BlockAlerts(r, a, b);
    LatestIs(r, a, i, j - 1);
    if j - 1 > i {
      LatestIs(r, a, i, j - 2);
      assert !r.Alerts(j - 1);
    }
  }

  lemma {:induction false} LatestIs(r: Run, a: nat, i: nat, k: nat)
    requires a <= i <= k < |r.ticks| && r.Alerts(i) && forall l :: i < l <= k ==> !r.Alerts(l)
    ensures r.LatestAlert(a, k) == i
    decreases k
  {
    if k > i {
      LatestIs(r, a, i, k - 1);
    }
  }

  // A block that lasts d alerts at most 1 + d / cooldown times.
  lemma AlertBudget(r: Run, a: nat, b: nat)
    requires r.Smooth() && r.Block(a, b) && r.cooldown > 0
    ensures 1 <= r.AlertCount(a, b) <= 1 + (r.Now(b) - r.Now(a)) / r.cooldown
  {
    hide StatusOf, Evaluate, Times;
    BlockRemembers(r, a, b, b);
    CountedTime(r, a, b, b);
    Quotient(r.AlertCount(a, b) - 1, r.Now(b) - r.Now(a), r.cooldown);
  }

  function Times(n: int, c: int): int {
    n * c
  }

  lemma Quotient(n: int, d: nat, c: nat)
    requires c > 0 && Times(n, c) <= d
    ensures n <= d / c
  {
    var q := d / c;
    assert d < Times(q + 1, c);
    if n > q {
      MoreTimes(q + 1, n, c);
    }
  }

  lemma MoreTimes(m: int, n: int, c: nat)
    requires m <= n
    ensures Times(m, c) <= Times(n, c)
  {
    assert (n - m) * c >= 0;
  }

  lemma {:induction false} CountedTime(r: Run, a: nat, b: nat, k: nat)
    requires r.Smooth() && r.Block(a, b) && a <= k <= b
    ensures r.AlertCount(a, k) >= 1
    ensures Times(r.AlertCount(a, k) - 1, r.cooldown) <= r.Now(r.LatestAlert(a, k)) - r.Now(a)
    decreases k
  {
    hide StatusOf, Evaluate, Times;
    BlockRemembers(r, a, b, a);
    if k > a {
      CountedTime(r, a, b, k - 1);
      BlockAlertsAt(r, a, b, k);
      OneMore(r.AlertCount(a, k - 1) - 1, r.cooldown);
    } else {
      Nothing(r.cooldown);
    }
  }

  lemma OneMore(n: int, c: int)
    ensures Times(n + 1, c) == Times(n, c) + c
  {
  }

  lemma Nothing(c: int)
    ensures Times(0, c) == 0
  {
  }

  // ---- The two stores ----

  // The rows agree on everything but the alert time of an objective that is
  // not burning.
  ghost predicate Alike(x: Option<Row>, y: Option<Row>) {
    match (x, y)
    case (None, None) => true
    case (Some(u), Some(v)) =>
      u.(alertedAt := None) == v.(alertedAt := None) && (Burning(u.status) ==> u.alertedAt == v.alertedAt)
    case _ => false
  }

  lemma AlikeStep(cooldown: nat, o: Objective, now: Time, c: Calls, x: Option<Row>, y: Option<Row>)
    requires Alike(x, y) && now > 0 && c.notifyOk && UrlAccepted(o.notifierUrl)
    ensures var ex, ey := Evaluate(Coalesce, cooldown, o, now, c, x), Evaluate(Overwrite, cooldown, o, now, c, y);
            ex.sent == ey.sent && Alike(ex.row, ey.row)
  {
    hide StatusOf, EventOf, Burn;
  }

  lemma {:induction false} AlikeRuns(r: Run, q: Run, k: nat)
    requires r.rule == Coalesce && q == r.(rule := Overwrite, start := q.start) && Alike(r.start, q.start)
    requires UrlAccepted(r.o.notifierUrl)
    requires forall i :: 0 <= i < |r.ticks| ==> r.ticks[i].now > 0 && r.ticks[i].calls.notifyOk
    requires k <= |r.ticks|
    ensures Alike(r.Row(k), q.Row(k)) && r.AllSent(k) == q.AllSent(k)
  {
    hide Alike, Evaluate;
    if k > 0 {
      AlikeRuns(r, q, k - 1);
      AlikeStep(r.cooldown, r.o, r.ticks[k - 1].now, r.ticks[k - 1].calls, r.Row(k - 1), q.Row(k - 1));
    }
  }

  // An objective whose URL is refused never sends anything.
  lemma {:induction false} RefusedSendsNothing(r: Run, k: nat)
    requires !UrlAccepted(r.o.notifierUrl) && k <= |r.ticks|
    ensures r.AllSent(k) == [] && (k < |r.ticks| ==> !r.Alerts(k))
  {
    hide StatusOf, EventOf, Burn;
    if k > 0 {
      RefusedSendsNothing(r, k - 1);
    }
  }

  // As long as no notification fails, the store that keeps old alert times
  // hands out the same events as the store that drops them on recovery,
  // even when queries, reads or writes of the state fail.
  lemma StoresAgree(cooldown: nat, o: Objective, ticks: seq<Tick>)
    requires forall i :: 0 <= i < |ticks| ==> ticks[i].now > 0 && ticks[i].calls.notifyOk
    ensures Run(Coalesce, cooldown, o, None, ticks).AllSent(|ticks|) == Run(Overwrite, cooldown, o, None, ticks).AllSent(|ticks|)
  {
    var r, q := Run(Coalesce, cooldown, o, None, ticks), Run(Overwrite, cooldown, o, None, ticks);
    if UrlAccepted(o.notifierUrl) {
      AlikeRuns(r, q, |ticks|);
    } else {
      RefusedSendsNothing(r, |ticks|);
      RefusedSendsNothing(q, |ticks|);
    }
  }

  // ---- A notification that fails ----

  // After a failed notification the next evaluation in the same status tries
  // again exactly when the stored row has no alert time or an old one.
  lemma RetryAfterFailure(rule: UpsertRule, cooldown: nat, o: Objective, row: Option<Row>,
                          t1: Time, c1: Calls, t2: Time, c2: Calls)
    requires c1.windows.Readable() && c1.getOk && !c1.notifyOk && c1.upsertOk
    requires c2.windows.Readable() && c2.getOk && UrlAccepted(o.notifierUrl)
    requires Due(cooldown, StatusOf(o, c1.windows), Loaded(o.id, row), t1)
    requires StatusOf(o, c2.windows) == StatusOf(o, c1.windows)
    ensures var after := Evaluate(rule, cooldown, o, t1, c1, row).row;
            var alerted := Loaded(o.id, row).alertedAt;
            Evaluate(rule, cooldown, o, t2, c2, after).sent != [] <==> alerted == 0 || t2 - alerted >= cooldown
  {
    hide StatusOf, EventOf, Burn;
  }

  // An alert that was handed out but whose row could not be written is handed
  // out again by the next evaluation in the same status.
  lemma UnsavedAlertRepeats(rule: UpsertRule, cooldown: nat, o: Objective, row: Option<Row>,
                            t1: Time, c1: Calls, t2: Time, c2: Calls)
    requires c1.windows.Readable() && !c1.upsertOk && c2.windows.Readable() && c2.getOk && t1 <= t2
    requires StatusOf(o, c2.windows) == StatusOf(o, c1.windows)
    requires Evaluate(rule, cooldown, o, t1, c1, row).sent != []
    ensures Evaluate(rule, cooldown, o, t2, c2, Evaluate(rule, cooldown, o, t1, c1, row).row).sent != []
  {
    hide StatusOf, EventOf, Burn;
  }

  // Where the alert time went on recovery decides: dropped by the plain
  // store, so the retry is immediate; kept by Postgres, so it has to wait.
  lemma RecoveryForgetsOnlyInPlainStore(rule: UpsertRule, cooldown: nat, o: Objective, row: Option<Row>, now: Time, c: Calls)
    requires c.windows.Readable() && c.getOk && c.upsertOk && !Burning(StatusOf(o, c.windows))
    ensures Loaded(o.id, Evaluate(rule, cooldown, o, now, c, row).row).alertedAt ==
            if rule.Overwrite? then 0 else Loaded(o.id, row).alertedAt
  {
    hide StatusOf, EventOf, Burn;
  }

  // ---- When failed notifications matter ----

  // Queries, reads and writes succeed; notifications may fail.
  ghost predicate Steady(ticks: seq<Tick>) {
    forall i :: 0 <= i < |ticks| ==>
      var c := ticks[i].calls;
      ticks[i].now > 0 && c.windows.Readable() && c.getOk && c.upsertOk
  }

  // An alert that reached its receiver.
  predicate Delivered(r: Run, k: nat)
    requires k < |r.ticks|
  {
    r.Alerts(k) && r.ticks[k].calls.notifyOk
  }

  // The time of the latest delivered alert before tick k.
  function Latest(r: Run, k: nat): Option<Time>
    requires k <= |r.ticks|
  {
    if k == 0 then None
    else if Delivered(r, k - 1) then Some(r.Now(k - 1))
    else Latest(r, k - 1)
  }

  // The same, forgetting everything on recovery.
  function SinceRecovery(r: Run, k: nat): Option<Time>
    requires k <= |r.ticks| && r.Readable()
  {
    if k == 0 || !Burning(r.StatusAt(k - 1)) then None
    else if Delivered(r, k - 1) then Some(r.Now(k - 1))
    else SinceRecovery(r, k - 1)
  }

  // Tick k repeats a burning status, nothing has been delivered since the last
  // recovery, and the latest delivery before it is less than a cooldown old.
  predicate Stranded(r: Run, k: nat)
    requires k < |r.ticks| && r.Readable()
  {
    && k > 0 && Burning(r.StatusAt(k)) && r.StatusAt(k) == r.StatusAt(k - 1)
    && SinceRecovery(r, k) == None
    && Latest(r, k).Some? && r.Now(k) - Latest(r, k).value < r.cooldown
  }

  function TimeOf(t: Option<Time>): Time {
    if t.Some? then t.value else 0
  }

  // What a step writes: the status, and an alert time that a delivery sets, a
  // recovery clears or keeps according to the rule, and a burn keeps.
  lemma SteadyStep(rule: UpsertRule, cooldown: nat, o: Objective, now: Time, c: Calls, row: Option<Row>)
    requires c.windows.Readable() && c.getOk && c.upsertOk && now > 0
    ensures var eff := Evaluate(rule, cooldown, o, now, c, row);
            var prev, status := Loaded(o.id, row), StatusOf(o, c.windows);
            var next := Loaded(o.id, eff.row);
            && next.status == status
            && (eff.sent != [] <==> Due(cooldown, status, prev, now) && UrlAccepted(o.notifierUrl))
            && (eff.sent != [] ==> eff.sent == [EventOf(o, c.windows, status, now)])
            && next.alertedAt ==
               if eff.sent != [] && c.notifyOk then now
               else if !Burning(status) && rule.Overwrite? then 0
               else prev.alertedAt
  {
    hide StatusOf, EventOf, Burn;
  }

  lemma RunSteadyStep(r: Run, k: nat)
    requires Steady(r.ticks) && k < |r.ticks|
    ensures var prev, next := Loaded(r.o.id, r.Row(k)), Loaded(r.o.id, r.Row(k + 1));
            && next.status == r.StatusAt(k)
            && (r.Alerts(k) <==> Due(r.cooldown, r.StatusAt(k), prev, r.Now(k)) && UrlAccepted(r.o.notifierUrl))
            && (r.Alerts(k) ==> r.Sent(k) == [EventOf(r.o, r.ticks[k].calls.windows, r.StatusAt(k), r.Now(k))])
            && next.alertedAt ==
               if Delivered(r, k) then r.Now(k)
               else if !Burning(r.StatusAt(k)) && r.rule.Overwrite? then 0
               else prev.alertedAt
  {
    hide StatusOf, Evaluate, Due, EventOf;
    SteadyStep(r.rule, r.cooldown, r.o, r.ticks[k].now, r.ticks[k].calls, r.Row(k));
  }

  // The plain store remembers the latest delivery since the last recovery,
  // the Postgres store the latest delivery of all.
  lemma {:induction false} StoreRemembers(r: Run, k: nat)
    requires Steady(r.ticks) && r.start == None && k <= |r.ticks|
    ensures r.StatusBefore(k) == if k == 0 then Unknown else r.StatusAt(k - 1)
    ensures r.rule.Overwrite? ==> Loaded(r.o.id, r.Row(k)).alertedAt == TimeOf(SinceRecovery(r, k))
    ensures r.rule.Coalesce? ==> Loaded(r.o.id, r.Row(k)).alertedAt == TimeOf(Latest(r, k))
    ensures (SinceRecovery(r, k).Some? ==> SinceRecovery(r, k) == Latest(r, k) && SinceRecovery(r, k).value > 0)
    ensures Latest(r, k).Some? ==> Latest(r, k).value > 0
    ensures Latest(r, k).Some? ==> UrlAccepted(r.o.notifierUrl)
  {
    hide StatusOf, Evaluate, Due, EventOf;
    if k > 0 {
      StoreRemembers(r, k - 1);
      RunSteadyStep(r, k - 1);
      if Delivered(r, k - 1) {
        OnlyBurningAlerts(r, k - 1);
      }
    }
  }

  lemma OnlyBurningAlerts(r: Run, k: nat)
    requires Steady(r.ticks) && k < |r.ticks| && r.Alerts(k)
    ensures Burning(r.StatusAt(k)) && UrlAccepted(r.o.notifierUrl)
  {
    hide StatusOf, Evaluate, EventOf;
    RunSteadyStep(r, k);
  }

  ghost predicate AgreeBefore(r: Run, q: Run, k: nat)
    requires |r.ticks| == |q.ticks| && k <= |r.ticks|
  {
    forall i :: 0 <= i < k ==> r.Sent(i) == q.Sent(i)
  }

  lemma {:induction false} SameDeliveries(r: Run, q: Run, k: nat)
    requires q.ticks == r.ticks && r.Readable() && q.Readable() && q.o == r.o && k <= |r.ticks|
    requires AgreeBefore(r, q, k)
    ensures Latest(r, k) == Latest(q, k) && SinceRecovery(r, k) == SinceRecovery(q, k)
  {
    hide StatusOf, Evaluate;
    if k > 0 {
      SameDeliveries(r, q, k - 1);
      assert r.Sent(k - 1) == q.Sent(k - 1);
    }
  }

  // Having agreed so far, the two runs disagree at tick k exactly if it is stranded.
  lemma DisagreeIff(r: Run, q: Run, k: nat)
    requires Steady(r.ticks) && r.rule == Overwrite && r.start == None && q == r.(rule := Coalesce)
    requires k < |r.ticks| && AgreeBefore(r, q, k)
    ensures r.Sent(k) != q.Sent(k) <==> Stranded(r, k)
  {
    hide StatusOf, Evaluate, EventOf, Latest, SinceRecovery;
    StoreRemembers(r, k);
    StoreRemembers(q, k);
    SameDeliveries(r, q, k);
    RunSteadyStep(r, k);
    RunSteadyStep(q, k);
    FreshRun(r);
  }

  lemma FreshRun(r: Run)
    requires r.Readable()
    ensures Latest(r, 0) == None && SinceRecovery(r, 0) == None
  {
  }

  // Where queries, reads and writes succeed, the two stores send the same
  // events at every evaluation exactly if no evaluation is stranded.
  lemma StoresAgreeIff(cooldown: nat, o: Objective, ticks: seq<Tick>)
    requires Steady(ticks)
    ensures var r, q := Run(Overwrite, cooldown, o, None, ticks), Run(Coalesce, cooldown, o, None, ticks);
            AgreeBefore(r, q, |ticks|) <==> forall k :: 0 <= k < |ticks| ==> !Stranded(r, k)
  {
    hide Stranded, StatusOf, Evaluate, EventOf;
    var r, q := Run(Overwrite, cooldown, o, None, ticks), Run(Coalesce, cooldown, o, None, ticks);
    for k := 0 to |ticks|
      invariant AgreeBefore(r, q, k) <==> forall i :: 0 <= i < k ==> !Stranded(r, i)
    {
      if AgreeBefore(r, q, k) {
        DisagreeIff(r, q, k);
      }
    }
  }

  function Sample(good: nat, notifyOk: bool): Calls {
    var s := Rows(good, 10);
    Calls(Windows(s, s, s, s), true, notifyOk, true)
  }

  // The shortest such run: burn, recover, burn again with the notification failing, burn on.
  function Diverging(): seq<Tick> {
    [Tick(1, Sample(0, true)), Tick(2, Sample(10, true)), Tick(3, Sample(0, false)), Tick(4, Sample(0, true))]
  }

  lemma StoresDiverge(o: Objective, cooldown: nat)
    requires UrlAccepted(o.notifierUrl) && cooldown > 3
    requires o.target == 0.5 && o.fastThreshold == 1.0 && o.slowThreshold == 1.0
    ensures !Run(Coalesce, cooldown, o, None, Diverging()).Alerts(3)
    ensures Run(Overwrite, cooldown, o, None, Diverging()).Alerts(3)
  {
    hide EventOf;
    assert StatusOf(o, Sample(0, true).windows) == FastBurn && StatusOf(o, Sample(0, false).windows) == FastBurn;
    assert StatusOf(o, Sample(10, true).windows) == OK;
    DivergingRun(Coalesce, o, cooldown);
    DivergingRun(Overwrite, o, cooldown);
  }

  lemma DivergingRun(rule: UpsertRule, o: Objective, cooldown: nat)
    requires UrlAccepted(o.notifierUrl) && cooldown > 3
    requires StatusOf(o, Sample(0, true).windows) == StatusOf(o, Sample(0, false).windows) == FastBurn
    requires StatusOf(o, Sample(10, true).windows) == OK
    ensures Run(rule, cooldown, o, None, Diverging()).Alerts(3) <==> rule.Overwrite?
  {
    hide StatusOf, EventOf, Burn;
    var r := Run(rule, cooldown, o, None, Diverging());
    assert r.Row(1).value.alertedAt == Some(1) && r.Row(1).value.status == FastBurn;
    assert r.Row(2).value.alertedAt == if rule.Overwrite? then None else Some(1);
    assert r.Row(2).value.status == OK;
    assert r.Row(3).value == Row(3, FastBurn, r.Row(3).value.burnRate, r.Row(2).value.alertedAt);
  }
}
