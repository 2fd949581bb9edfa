// SLO burn-rate alerting (pkg/slo/evaluator.go, types.go) and the state row
// it keeps (pkg/slo/store.go).

module Slo {
  import opened Options

  // Instants; zero is Go's zero time, which stands for "never".
  type Time = nat

  datatype Status = Unknown | NoData | OK | SlowBurn | FastBurn

  datatype Objective = Objective(
    id: string, name: string, tenant: string,
    target: real, fastThreshold: real, slowThreshold: real, notifierUrl: string)

  datatype State = State(id: string, evaluatedAt: Time, status: Status, burnRate: real, alertedAt: Time)

  // The row of slo_state; last_alerted_at is nullable.
  datatype Row = Row(evaluatedAt: Time, status: Status, burnRate: real, alertedAt: Option<Time>)

  datatype BurnEvent = BurnEvent(
    id: string, name: string, tenant: string, severity: Status,
    burnRate: real, threshold: real, sli: real, windowSeconds: nat, at: Time)

  // What the results table says about one trailing window.
  datatype Sample = Rows(good: nat, total: nat) | QueryFailed

  datatype Windows = Windows(fastLong: Sample, fastShort: Sample, slowLong: Sample, slowShort: Sample) {
    predicate Readable() {
      fastLong.Rows? && fastShort.Rows? && slowLong.Rows? && slowShort.Rows?
    }
  }

  // How the calls one evaluation makes turn out.
  datatype Calls = Calls(windows: Windows, getOk: bool, notifyOk: bool, upsertOk: bool)

  const WINDOW_FAST_LONG: nat := 3600
  const WINDOW_SLOW_LONG: nat := 21600

  // ---- Classification ----

  // An empty window counts as no success at all.
  function Sli(s: Sample): real
    requires s.Rows?
  {
    if s.total == 0 then 0.0 else s.good as real / s.total as real
  }

  function BurnRate(sli: real, target: real): real {
    if target >= 1.0 then 0.0
    else if target <= 0.0 then 0.0
    else (1.0 - sli) / (1.0 - target)
  }

  function Classify(fastLong: real, fastShort: real, fastT: real, slowLong: real, slowShort: real, slowT: real,
                    fastNoData: bool): Status {
    if fastNoData then NoData
    else if fastLong > fastT && fastShort > fastT then FastBurn
    else if slowLong > slowT && slowShort > slowT then SlowBurn
    else OK
  }

  function Burn(o: Objective, s: Sample): real
    requires s.Rows?
  {
    BurnRate(Sli(s), o.target)
  }

  function StatusOf(o: Objective, w: Windows): Status
    requires w.Readable()
  {
    Classify(Burn(o, w.fastLong), Burn(o, w.fastShort), o.fastThreshold,
             Burn(o, w.slowLong), Burn(o, w.slowShort), o.slowThreshold,
             w.fastLong.total + w.fastShort.total == 0)
  }

  predicate Burning(s: Status) {
    s == FastBurn || s == SlowBurn
  }

  // The SLI of a window is its share of good probes.
  lemma SliMeans(s: Sample)
    requires s.Rows?
    ensures s.total > 0 ==> Sli(s) * s.total as real == s.good as real
    ensures s.total == 0 ==> Sli(s) == 0.0
  {
    if s.total > 0 {
      Ratio(s.good as real, s.total as real);
    }
  }

  lemma Ratio(x: real, n: real)
    requires n > 0.0
    ensures x / n * n == x
  {
  }

  // rate times the failures the target allows are the failures there were; a
  // window without probes failed as a whole, and a target that is not strictly
  // between 0 and 1 has no rate.
  predicate IsRate(o: Objective, s: Sample, rate: real)
    requires s.Rows?
  {
    if o.target <= 0.0 || 1.0 <= o.target then rate == 0.0
    else if s.total == 0 then rate * (1.0 - o.target) == 1.0
    else rate * ((1.0 - o.target) * s.total as real) == (s.total - s.good) as real
  }

  lemma BurnIsRate(o: Objective, s: Sample)
    requires s.Rows?
    ensures IsRate(o, s, Burn(o, s))
  {
    hide Sli;
    SliMeans(s);
    if 0.0 < o.target < 1.0 {
      Ratio(1.0 - Sli(s), 1.0 - o.target);
      if s.total > 0 {
        Failures(Burn(o, s), 1.0 - o.target, Sli(s), s.good as real, s.total as real);
      }
    }
  }

  lemma Failures(rate: real, budget: real, sli: real, good: real, total: real)
    requires rate * budget == 1.0 - sli && sli * total == good
    ensures rate * (budget * total) == total - good
  {
    assert rate * (budget * total) == (rate * budget) * total;
  }

  // More probes of a window failed than t times what the target allows.
  predicate Exceeds(o: Objective, s: Sample, t: real)
    requires s.Rows?
  {
    if o.target <= 0.0 || 1.0 <= o.target then 0.0 > t
    else if s.total == 0 then 1.0 > t * (1.0 - o.target)
    else (s.total - s.good) as real > t * ((1.0 - o.target) * s.total as real)
  }

  lemma BurnMeans(o: Objective, s: Sample, t: real)
    requires s.Rows?
    ensures Burn(o, s) > t <==> Exceeds(o, s, t)
  {
    hide Burn;
    BurnIsRate(o, s);
    if 0.0 < o.target < 1.0 {
      if s.total == 0 {
        Compare(Burn(o, s), t, 1.0 - o.target, 1.0);
      } else {
        FullRate(Burn(o, s), t, 1.0 - o.target, s.total as real, (s.total - s.good) as real);
      }
    }
  }

  lemma FullRate(rate: real, t: real, budget: real, total: real, failed: real)
    requires budget > 0.0 && total > 0.0 && rate * (budget * total) == failed
    ensures rate > t <==> failed > t * (budget * total)
  {
    var n := budget * total;
    assert n > 0.0;
    Compare(rate, t, n, failed);
  }

  lemma Compare(q: real, t: real, n: real, x: real)
    requires n > 0.0 && x == q * n
    ensures q > t <==> x > t * n
  {
    var d := (q - t) * n;
    assert d == x - t * n;
    if q > t {
      assert d > 0.0;
    } else {
      assert d <= 0.0;
    }
  }

  // The multi-window rule in terms of failures: no data in the fast windows
  // wins, then both fast windows over their budget, then both slow ones.
  lemma StatusMeans(o: Objective, w: Windows)
    requires w.Readable()
    ensures var silent := w.fastLong.total == 0 && w.fastShort.total == 0;
            var fast := Exceeds(o, w.fastLong, o.fastThreshold) && Exceeds(o, w.fastShort, o.fastThreshold);
            var slow := Exceeds(o, w.slowLong, o.slowThreshold) && Exceeds(o, w.slowShort, o.slowThreshold);
            && (StatusOf(o, w) == NoData <==> silent)
            && (StatusOf(o, w) == FastBurn <==> !silent && fast)
            && (StatusOf(o, w) == SlowBurn <==> !silent && !fast && slow)
            && (StatusOf(o, w) == OK <==> !silent && !fast && !slow)
  {
    hide Exceeds, Burn;
    BurnMeans(o, w.fastLong, o.fastThreshold);
    BurnMeans(o, w.fastShort, o.fastThreshold);
    BurnMeans(o, w.slowLong, o.slowThreshold);
    BurnMeans(o, w.slowShort, o.slowThreshold);
  }

  // A window in which everything failed.
  function AllFailed(s: Sample, n: nat): Sample {
    if s.Rows? && s.total == 0 then Rows(0, n) else s
  }

  // Unless both fast windows are empty, silence is failure: filling every
  // empty window with n failures leaves the status as it is.
  lemma SilenceIsFailure(o: Objective, w: Windows, n: nat)
    requires w.Readable() && n > 0 && w.fastLong.total + w.fastShort.total > 0
    ensures StatusOf(o, w) == StatusOf(o, Windows(AllFailed(w.fastLong, n), AllFailed(w.fastShort, n),
                                                  AllFailed(w.slowLong, n), AllFailed(w.slowShort, n)))
  {
    hide Classify, BurnRate;
    forall s: Sample | s.Rows? ensures Sli(AllFailed(s, n)) == Sli(s) {
      NoneGood(n);
    }
  }

  lemma NoneGood(n: nat)
    requires n > 0
    ensures 0 as real / n as real == 0.0
  {
  }

  // ---- The state row ----

  // What an upsert does to a row that exists: the Postgres statement keeps
  // the old alert time when the new one is null, a plain store does not.
  datatype UpsertRule = Coalesce | Overwrite

  function Stored(rule: UpsertRule, was: Option<Row>, st: State): Row {
    var alerted := if st.alertedAt == 0 then None else Some(st.alertedAt);
    Row(st.evaluatedAt, st.status, st.burnRate,
        if alerted.None? && rule.Coalesce? && was.Some? then was.value.alertedAt else alerted)
  }

  function Loaded(id: string, row: Option<Row>): State {
    match row
    case None => State(id, 0, Unknown, 0.0, 0)
    case Some(r) => State(id, r.evaluatedAt, r.status, r.burnRate, if r.alertedAt.Some? then r.alertedAt.value else 0)
  }

  function Lookup(rows: map<string, Row>, id: string): Option<Row> {
    if id in rows then Some(rows[id]) else None
  }

  class Store {
    const rule: UpsertRule
    var rows: map<string, Row>

    constructor (rule: UpsertRule)
      ensures this.rule == rule && rows == map[]
    {
      this.rule := rule;
      rows := map[];
    }

    method UpsertState(st: State, ok: bool) returns (done: bool)
      modifies this
      ensures done == ok
      ensures rows == if ok then old(rows)[st.id := Stored(rule, Lookup(old(rows), st.id), st)] else old(rows)
    {
      if !ok {
        return false;
      }
      var alertedAt := None;
      if st.alertedAt != 0 {
        alertedAt := Some(st.alertedAt);
      }
      if st.id in rows && rule.Coalesce? && alertedAt.None? {
        alertedAt := rows[st.id].alertedAt;
      }
      rows := rows[st.id := Row(st.evaluatedAt, st.status, st.burnRate, alertedAt)];
      return true;
    }

    method GetState(id: string, ok: bool) returns (st: Option<State>)
      ensures st == if ok then Some(Loaded(id, Lookup(rows, id))) else None
    {
      if !ok {
        return None;
      }
      if id !in rows {
        return Some(State(id, 0, Unknown, 0.0, 0));
      }
      var r := rows[id];
      var alertedAt := 0;
      if r.alertedAt.Some? {
        alertedAt := r.alertedAt.value;
      }
      return Some(State(id, r.evaluatedAt, r.status, r.burnRate, alertedAt));
    }
  }

  // ---- One evaluation ----

  function EventOf(o: Objective, w: Windows, status: Status, now: Time): BurnEvent
    requires w.Readable()
  {
    if status == SlowBurn then
      BurnEvent(o.id, o.name, o.tenant, status, Burn(o, w.slowLong), o.slowThreshold, Sli(w.slowLong), WINDOW_SLOW_LONG, now)
    else
      BurnEvent(o.id, o.name, o.tenant, status, Burn(o, w.fastLong), o.fastThreshold, Sli(w.fastLong), WINDOW_FAST_LONG, now)
  }

  predicate UrlAccepted(url: string) {
    url == "" || "https://" <= url
  }

  // Entering a burn, never alerted, or alerted a cooldown ago.
  predicate Due(cooldown: nat, status: Status, prev: State, now: Time) {
    Burning(status) && (prev.status != status || prev.alertedAt == 0 || now - prev.alertedAt >= cooldown)
  }

  // The row afterwards, the events handed to the notifier, and success.
  datatype Effect = Effect(row: Option<Row>, sent: seq<BurnEvent>, ok: bool)

  function NextState(cooldown: nat, o: Objective, now: Time, c: Calls, prev: State): (State, seq<BurnEvent>)
    requires c.windows.Readable()
  {
    var status := StatusOf(o, c.windows);
    var st := State(o.id, now, status, Burn(o, c.windows.fastLong), prev.alertedAt);
    if Due(cooldown, status, prev, now) then
      if !UrlAccepted(o.notifierUrl) then (st, [])
      else (if c.notifyOk then st.(alertedAt := now) else st, [EventOf(o, c.windows, status, now)])
    else (if Burning(status) then st else st.(alertedAt := 0), [])
  }

  lemma NextId(cooldown: nat, o: Objective, now: Time, c: Calls, prev: State)
    requires c.windows.Readable()
    ensures NextState(cooldown, o, now, c, prev).0.id == o.id
  {
  }

  function Evaluate(rule: UpsertRule, cooldown: nat, o: Objective, now: Time, c: Calls, row: Option<Row>): Effect {
    if !c.windows.Readable() || !c.getOk then Effect(row, [], false)
    else
      var (st, sent) := NextState(cooldown, o, now, c, Loaded(o.id, row));
      Effect(if c.upsertOk then Some(Stored(rule, row, st)) else row, sent, c.upsertOk)
  }

  // When an evaluation fails, and what the row says after one that does not:
  // the instant, the status, the burn rate of the long fast window, and as
  // alert time this instant if the notifier was told, the time before while
  // burning, else none, where the Postgres statement keeps what it had. An
  // evaluation that fails at the write leaves the row alone.
  lemma EvaluateWrites(rule: UpsertRule, cooldown: nat, o: Objective, now: Time, c: Calls, row: Option<Row>)
    ensures var eff := Evaluate(rule, cooldown, o, now, c, row);
            && (eff.ok <==> c.windows.Readable() && c.getOk && c.upsertOk)
            && (!eff.ok ==> eff.row == row)
            && (!c.windows.Readable() || !c.getOk ==> eff.sent == [])
            && (eff.ok ==>
                  var status := StatusOf(o, c.windows);
                  var before := if row.Some? && row.value.alertedAt.Some? then row.value.alertedAt.value else 0;
                  var at := if eff.sent != [] && c.notifyOk then now else if Burning(status) then before else 0;
                  && eff.row.Some? && eff.row.value.evaluatedAt == now && eff.row.value.status == status
                  && IsRate(o, c.windows.fastLong, eff.row.value.burnRate)
                  && eff.row.value.alertedAt ==
                     if at != 0 then Some(at) else if rule == Coalesce && row.Some? then row.value.alertedAt else None)
  {
    hide StatusOf, Burn, IsRate, EventOf;
    if c.windows.Readable() {
      BurnIsRate(o, c.windows.fastLong);
    }
  }

  // When an evaluation alerts and what it says. It alerts once, on entering a
  // burning status, burning and never alerted, or burning a cooldown after the
  // latest alert, unless a URL is set that does not begin with https://. The
  // event carries the figures of the long window of its kind.
  lemma EvaluateAlerts(rule: UpsertRule, cooldown: nat, o: Objective, now: Time, c: Calls, row: Option<Row>)
    requires c.windows.Readable() && c.getOk
    ensures var sent, status := Evaluate(rule, cooldown, o, now, c, row).sent, StatusOf(o, c.windows);
            var before := if row.Some? && row.value.alertedAt.Some? then row.value.alertedAt.value else 0;
            var entered := row == None || row.value.status != status;
            var url := o.notifierUrl;
            && |sent| <= 1
            && (sent != [] <==>
                  && (status == FastBurn || status == SlowBurn)
                  && (entered || before == 0 || now >= before + cooldown)
                  && (url == "" || (|url| >= 8 && url[..8] == "https://")))
            && (sent != [] ==>
                  var (ev, s) := (sent[0], if status == FastBurn then c.windows.fastLong else c.windows.slowLong);
                  && ev.id == o.id && ev.name == o.name && ev.tenant == o.tenant && ev.severity == status && ev.at == now
                  && ev.threshold == (if status == FastBurn then o.fastThreshold else o.slowThreshold)
                  && ev.windowSeconds == (if status == FastBurn then 3600 else 21600)
                  && (if s.total == 0 then ev.sli == 0.0 else ev.sli * s.total as real == s.good as real)
                  && IsRate(o, s, ev.burnRate))
  {
    hide StatusOf, Burn, IsRate, Sli;
    var w := c.windows;
    SliMeans(w.fastLong);
    SliMeans(w.slowLong);
    BurnIsRate(o, w.fastLong);
    BurnIsRate(o, w.slowLong);
  }

  // The rows and the events handed out after one round, objective by objective.
  datatype Round = Round(rows: map<string, Row>, sent: seq<BurnEvent>)

  ghost function RoundOf(rule: UpsertRule, cooldown: nat, os: seq<Objective>, now: Time, cs: seq<Calls>,
                         rows: map<string, Row>): Round
    requires |os| == |cs|
  {
    if os == [] then Round(rows, [])
    else
      var k := |os| - 1;
      var before := RoundOf(rule, cooldown, os[..k], now, cs[..k], rows);
      var eff := Evaluate(rule, cooldown, os[k], now, cs[k], Lookup(before.rows, os[k].id));
      Round(Put(before.rows, os[k].id, eff.row), before.sent + eff.sent)
  }

  function Put(rows: map<string, Row>, id: string, row: Option<Row>): map<string, Row> {
    if row.Some? then rows[id := row.value] else rows
  }

  // With distinct ids every objective gets the step of its own row, whatever
  // happens to the others, and no other row changes.
  lemma {:induction false} RoundsAreIndependent(rule: UpsertRule, cooldown: nat, os: seq<Objective>, now: Time,
                                                cs: seq<Calls>, rows: map<string, Row>, id: string)
    requires |os| == |cs| && forall i, j :: 0 <= i < j < |os| ==> os[i].id != os[j].id
    ensures var after := Lookup(RoundOf(rule, cooldown, os, now, cs, rows).rows, id);
            && (forall i :: 0 <= i < |os| && os[i].id == id ==>
                  after == Evaluate(rule, cooldown, os[i], now, cs[i], Lookup(rows, id)).row)
            && ((forall i :: 0 <= i < |os| ==> os[i].id != id) ==> after == Lookup(rows, id))
    decreases |os|
  {
    hide Evaluate;
    if os != [] {
      var k := |os| - 1;
      RoundsAreIndependent(rule, cooldown, os[..k], now, cs[..k], rows, id);
      RowStays(rule, cooldown, os[k], now, cs[k], Lookup(RoundOf(rule, cooldown, os[..k], now, cs[..k], rows).rows, os[k].id));
    }
  }

  // The events of each objective's step from its own row, in order.
  function Sends(rule: UpsertRule, cooldown: nat, os: seq<Objective>, now: Time, cs: seq<Calls>,
                 rows: map<string, Row>): seq<BurnEvent>
    requires |os| == |cs|
  {
    if os == [] then []
    else Evaluate(rule, cooldown, os[0], now, cs[0], Lookup(rows, os[0].id)).sent
         + Sends(rule, cooldown, os[1..], now, cs[1..], rows)
  }

  lemma {:induction false} SendsLast(rule: UpsertRule, cooldown: nat, os: seq<Objective>, now: Time, cs: seq<Calls>,
                                     rows: map<string, Row>)
    requires |os| == |cs| && os != []
    ensures var k := |os| - 1;
            Sends(rule, cooldown, os, now, cs, rows) ==
            Sends(rule, cooldown, os[..k], now, cs[..k], rows)
            + Evaluate(rule, cooldown, os[k], now, cs[k], Lookup(rows, os[k].id)).sent
    decreases |os|
  {
    hide Evaluate, Lookup;
    var k := |os| - 1;
    if k > 0 {
      SendsLast(rule, cooldown, os[1..], now, cs[1..], rows);
      assert os[1..][..k - 1] == os[..k][1..] && cs[1..][..k - 1] == cs[..k][1..];
    }
  }

  // A round hands out exactly these, if the ids are distinct.
  lemma {:induction false} RoundSends(rule: UpsertRule, cooldown: nat, os: seq<Objective>, now: Time, cs: seq<Calls>,
                                      rows: map<string, Row>)
    requires |os| == |cs| && forall i, j :: 0 <= i < j < |os| ==> os[i].id != os[j].id
    ensures RoundOf(rule, cooldown, os, now, cs, rows).sent == Sends(rule, cooldown, os, now, cs, rows)
    decreases |os|
  {
    hide Evaluate, Lookup;
    if os != [] {
      var k := |os| - 1;
      RoundSends(rule, cooldown, os[..k], now, cs[..k], rows);
      SendsLast(rule, cooldown, os, now, cs, rows);
      RoundsAreIndependent(rule, cooldown, os[..k], now, cs[..k], rows, os[k].id);
    }
  }

  // A stored row is never removed.
  lemma RowStays(rule: UpsertRule, cooldown: nat, o: Objective, now: Time, c: Calls, row: Option<Row>)
    ensures row.Some? ==> Evaluate(rule, cooldown, o, now, c, row).row.Some?
  {
    hide NextState;
  }

  class Evaluator {
    const cooldown: nat
    const store: Store
    var sent: seq<BurnEvent>

    constructor (cooldown: nat, store: Store)
      ensures this.cooldown == cooldown && this.store == store && sent == []
    {
      this.cooldown := cooldown;
      this.store := store;
      sent := [];
    }

    method MakeEvent(o: Objective, w: Windows, status: Status, now: Time) returns (ev: BurnEvent)
      requires w.Readable()
      ensures ev == EventOf(o, w, status, now)
    {
      ev := BurnEvent(o.id, o.name, o.tenant, status, Burn(o, w.fastLong), o.fastThreshold,
                      Sli(w.fastLong), WINDOW_FAST_LONG, now);
      if status == SlowBurn {
        ev := ev.(burnRate := Burn(o, w.slowLong), threshold := o.slowThreshold,
                  sli := Sli(w.slowLong), windowSeconds := WINDOW_SLOW_LONG);
      }
    }

    // Decides whether to notify, does so, and returns the state to store.
    method Notify(o: Objective, now: Time, c: Calls, prev: State) returns (newState: State)
      requires c.windows.Readable()
      modifies this`sent
      ensures var (st, events) := NextState(cooldown, o, now, c, prev);
              newState == st && sent == old(sent) + events
    {
      hide Classify, Burn, Sli, EventOf;
      var w := c.windows;
      var status := Classify(Burn(o, w.fastLong), Burn(o, w.fastShort), o.fastThreshold,
                             Burn(o, w.slowLong), Burn(o, w.slowShort), o.slowThreshold,
                             w.fastLong.total + w.fastShort.total == 0);
      newState := State(o.id, now, status, Burn(o, w.fastLong), prev.alertedAt);
      var burning := status == FastBurn || status == SlowBurn;
      var transitioned := burning && prev.status != status;
      var cooldownExpired := burning && prev.alertedAt != 0 && now - prev.alertedAt >= cooldown;
      var freshBurn := burning && prev.alertedAt == 0;
      if transitioned || cooldownExpired || freshBurn {
        var ev := MakeEvent(o, w, status, now);
        if o.notifierUrl != "" && !("https://" <= o.notifierUrl) {
          return;
        }
        sent := sent + [ev];
        if c.notifyOk {
          newState := newState.(alertedAt := now);
        }
      } else if !burning {
        newState := newState.(alertedAt := 0);
      }
    }

    method EvaluateOne(o: Objective, now: Time, c: Calls) returns (ok: bool)
      modifies this, store
      ensures var eff := Evaluate(store.rule, cooldown, o, now, c, Lookup(old(store.rows), o.id));
              && ok == eff.ok
              && sent == old(sent) + eff.sent
              && Lookup(store.rows, o.id) == eff.row
      ensures forall id :: id != o.id ==> Lookup(store.rows, id) == Lookup(old(store.rows), id)
    {
      hide NextState, Stored, Loaded;
      var w := c.windows;
      if w.fastLong.QueryFailed? || w.fastShort.QueryFailed? || w.slowLong.QueryFailed? || w.slowShort.QueryFailed? {
        return false;
      }
      var got := store.GetState(o.id, c.getOk);
      if got.None? {
        return false;
      }
      NextId(cooldown, o, now, c, got.value);
      var newState := Notify(o, now, c, got.value);
      ok := store.UpsertState(newState, c.upsertOk);
    }

    // One round over the enabled objectives; nothing happens if they cannot be
    // listed, and a failing evaluation does not stop the others.
    method Tick(listed: Option<seq<Objective>>, now: Time, cs: seq<Calls>)
      requires listed.Some? ==> |listed.value| == |cs|
      modifies this, store
      ensures listed == None ==> store.rows == old(store.rows) && sent == old(sent)
      ensures listed.Some? ==>
                var round := RoundOf(store.rule, cooldown, listed.value, now, cs, old(store.rows));
                store.rows == round.rows && sent == old(sent) + round.sent
    {
      hide Evaluate;
      if listed == None {
        return;
      }
      var os := listed.value;
      ghost var was := store.rows;
      for k := 0 to |os|
        invariant var round := RoundOf(store.rule, cooldown, os[..k], now, cs[..k], was);
                  store.rows == round.rows && sent == old(sent) + round.sent
      {
        assert os[..k + 1][..k] == os[..k] && cs[..k + 1][..k] == cs[..k];
        ghost var rows := store.rows;
        RowStays(store.rule, cooldown, os[k], now, cs[k], Lookup(rows, os[k].id));
        var _ := EvaluateOne(os[k], now, cs[k]);
        SameRows(store.rows, Put(rows, os[k].id, Evaluate(store.rule, cooldown, os[k], now, cs[k], Lookup(rows, os[k].id)).row));
      }
      assert os[..|os|] == os && cs[..|os|] == cs;
    }
  }

  // Equal lookups make equal tables.
  lemma SameRows(m: map<string, Row>, n: map<string, Row>)
    ensures (forall id :: Lookup(m, id) == Lookup(n, id)) ==> m == n
  {
    if forall id :: Lookup(m, id) == Lookup(n, id) {
      forall id ensures id in m <==> id in n {
        assert Lookup(m, id) == Lookup(n, id);
      }
      forall id | id in m ensures m[id] == n[id] {
        assert Lookup(m, id) == Lookup(n, id);
      }
    }
  }
}
