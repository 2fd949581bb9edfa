// Crash safety of the schema runners, over any sequence of runs, each cut off
// after any number of database calls.

module MigrationProps {
  import opened Options
  import opened Sorting
  import opened Migrations

  // Exactly the first k files are recorded, and the schema is their fold.
  ghost predicate Through<S(!new)>(plan: Plan<S>, s0: S, k: nat, db: Db<S>) {
    k <= |plan.names| && db.recorded == First(plan.names, k) && Fold(plan, s0, k) == Some(db.schema)
  }

  // ... or the schema is one recorded file further.
  ghost predicate ThroughOrAhead<S(!new)>(plan: Plan<S>, s0: S, k: nat, db: Db<S>) {
    || Through(plan, s0, k, db)
    || (k < |plan.names| && db.recorded == First(plan.names, k) && Fold(plan, s0, k + 1) == Some(db.schema))
  }

  lemma FirstGrows(names: seq<string>, k: nat)
    requires Distinct(names) && k < |names|
    ensures First(names, k + 1) == First(names, k) + {names[k]}
    ensures names[k] !in First(names, k)
  {
  }

  lemma FirstHas(names: seq<string>, j: nat, k: nat)
    requires Distinct(names) && j <= |names| && k < |names|
    ensures names[k] in First(names, j) <==> k < j
  {
  }

  function Max(a: nat, b: nat): nat {
    if a < b then b else a
  }

  // ---- Postgres ----

  lemma {:induction false} PostgresAdvances<S(!new)>(plan: Plan<S>, s0: S, j: nat, k: nat, db: Db<S>, calls: nat)
    returns (m: nat)
    requires Distinct(plan.names) && j <= |plan.names| && k <= |plan.names| && Through(plan, s0, Max(j, k), db)
    ensures var out := PostgresFrom(plan, First(plan.names, j), k, db, calls);
            && Max(j, k) <= m && Through(plan, s0, m, out.db)
            && (out.done ==> m == |plan.names|)
    decreases |plan.names| - k
  {
    m := Max(j, k);
    if k < |plan.names| {
      FirstHas(plan.names, j, k);
      FirstGrows(plan.names, k);
      if k < j {
        m := PostgresAdvances(plan, s0, j, k + 1, db, calls);
      } else if plan.names[k] in plan.bodies && calls >= 4 {
        var next := plan.exec(plan.bodies[plan.names[k]], db.schema);
        if next.Some? {
          m := PostgresAdvances(plan, s0, j, k + 1, Db(next.value, db.recorded + {plan.names[k]}), calls - 4);
        }
      }
    }
  }

  function PostgresRuns<S>(plan: Plan<S>, db: Db<S>, cuts: seq<nat>): Db<S> {
    if cuts == [] then db
    else PostgresRun(plan, PostgresRuns(plan, db, cuts[..|cuts| - 1]), cuts[|cuts| - 1]).db
  }

  // At every moment the recorded files are a prefix of the list, and the
  // schema is exactly what they make of the initial one.
  lemma {:induction false} PostgresAlwaysPrefix<S(!new)>(plan: Plan<S>, s0: S, cuts: seq<nat>) returns (m: nat)
    requires Distinct(plan.names)
    ensures Through(plan, s0, m, PostgresRuns(plan, Db(s0, {}), cuts))
  {
    if cuts == [] {
      m := 0;
    } else {
      var before := cuts[..|cuts| - 1];
      m := PostgresAlwaysPrefix(plan, s0, before);
      if cuts[|cuts| - 1] >= 2 {
        m := PostgresAdvances(plan, s0, m, 0, PostgresRuns(plan, Db(s0, {}), before), cuts[|cuts| - 1] - 2);
      }
    }
  }

  // A run that reports success has applied every file once, whatever
  // happened to the runs before it.
  lemma PostgresDoneMeansFold<S(!new)>(plan: Plan<S>, s0: S, cuts: seq<nat>, calls: nat)
    requires Distinct(plan.names)
    requires PostgresRun(plan, PostgresRuns(plan, Db(s0, {}), cuts), calls).done
    ensures Through(plan, s0, |plan.names|, PostgresRun(plan, PostgresRuns(plan, Db(s0, {}), cuts), calls).db)
  {
    var m := PostgresAlwaysPrefix(plan, s0, cuts);
    m := PostgresAdvances(plan, s0, m, 0, PostgresRuns(plan, Db(s0, {}), cuts), calls - 2);
  }

  // A truncated tracking table makes the next run execute every file again,
  // on the schema they already produced.
  lemma TruncationReplays<S(!new)>(plan: Plan<S>, s: S, calls: nat)
    requires Distinct(plan.names) && Fold(plan, s, |plan.names|).Some? && calls >= 2 + 4 * |plan.names|
    ensures PostgresRun(plan, Db(s, {}), calls)
         == Outcome(Db(Fold(plan, s, |plan.names|).value, First(plan.names, |plan.names|)), true)
  {
    assert PostgresRuns(plan, Db(s, {}), []) == Db(s, {});
    PostgresRecovers(plan, s, [], calls);
    PostgresDoneMeansFold(plan, s, [], calls);
  }

  // That is harmless exactly if the whole list, executed on what it produced,
  // goes through and produces the same; a file the database refuses to execute
  // again leaves the run unfinished.
  lemma TruncationHarmlessIff<S(!new)>(plan: Plan<S>, s: S, calls: nat)
    requires Distinct(plan.names) && calls >= 2 + 4 * |plan.names|
    ensures PostgresRun(plan, Db(s, {}), calls) == Outcome(Db(s, First(plan.names, |plan.names|)), true)
       <==> Fold(plan, s, |plan.names|) == Some(s)
  {
    var n := |plan.names|;
    assert PostgresRuns(plan, Db(s, {}), []) == Db(s, {});
    if Fold(plan, s, n).Some? {
      TruncationReplays(plan, s, calls);
    }
    if PostgresRun(plan, Db(s, {}), calls).done {
      PostgresDoneMeansFold(plan, s, [], calls);
    }
  }

  // It does not follow from each file being idempotent: creating A and
  // then renaming it to B, both only if possible, brings A back.
  function CreateOrRename(body: string, tables: set<string>): Option<set<string>> {
    if body == "create" then Some(tables + {"A"})
    else if "A" in tables && "B" !in tables then Some(tables - {"A"} + {"B"})
    else Some(tables)
  }

  lemma TruncationCanBreak()
    ensures var plan := Plan(["1.sql", "2.sql"], map["1.sql" := "create", "2.sql" := "rename"], CreateOrRename);
            && (forall name :: name in plan.bodies ==> Idempotent(plan.exec, plan.bodies[name]))
            && Fold(plan, {}, 2) == Some({"B"})
            && PostgresRun(plan, Db({"B"}, {}), 10).db.schema == {"A", "B"}
  {
    var plan := Plan(["1.sql", "2.sql"], map["1.sql" := "create", "2.sql" := "rename"], CreateOrRename);
    forall name | name in plan.bodies ensures Idempotent(plan.exec, plan.bodies[name]) {
    }
    var none: set<string> := {};
    assert none + {"A"} == {"A"} && {"A"} - {"A"} + {"B"} == {"B"} && {"B"} + {"A"} == {"A", "B"};
    assert Fold(plan, none, 0) == Some(none) && Fold(plan, {"B"}, 0) == Some({"B"});
    assert Fold(plan, none, 1) == CreateOrRename("create", none) == Some({"A"});
    assert Fold(plan, {"B"}, 1) == CreateOrRename("create", {"B"}) == Some({"A", "B"});
    TruncationReplays(plan, {"B"}, 10);
  }

  lemma {:induction false} AllSkipped<S(!new)>(plan: Plan<S>, k: nat, db: Db<S>, calls: nat)
    requires k <= |plan.names|
    ensures PostgresFrom(plan, First(plan.names, |plan.names|), k, db, calls) == Outcome(db, true)
    ensures ClickHouseFrom(plan, First(plan.names, |plan.names|), k, db, calls) == Outcome(db, true)
    decreases |plan.names| - k
  {
    if k < |plan.names| {
      AllSkipped(plan, k + 1, db, calls);
    }
  }

  // Another run after a successful one changes nothing.
  lemma PostgresSecondRun<S(!new)>(plan: Plan<S>, s0: S, db: Db<S>, calls: nat)
    requires Through(plan, s0, |plan.names|, db)
    ensures PostgresRun(plan, db, calls) == Outcome(db, calls >= 2)
  {
    if calls >= 2 {
      AllSkipped(plan, 0, db, calls - 2);
    }
  }

  lemma {:induction false} FoldPrefix<S(!new)>(plan: Plan<S>, s0: S, j: nat, k: nat)
    requires j <= k <= |plan.names| && Fold(plan, s0, k).Some?
    ensures Fold(plan, s0, j).Some?
    decreases k
  {
    if j < k {
      FoldPrefix(plan, s0, j, k - 1);
    }
  }

  lemma {:induction false} PostgresReaches<S(!new)>(plan: Plan<S>, s0: S, j: nat, k: nat, db: Db<S>, calls: nat)
    requires Distinct(plan.names) && j <= |plan.names| && k <= |plan.names| && Through(plan, s0, Max(j, k), db)
    requires Fold(plan, s0, |plan.names|).Some? && calls >= 4 * (|plan.names| - k)
    ensures PostgresFrom(plan, First(plan.names, j), k, db, calls).done
    decreases |plan.names| - k
  {
    if k < |plan.names| {
      FirstHas(plan.names, j, k);
      FirstGrows(plan.names, k);
      FoldPrefix(plan, s0, k + 1, |plan.names|);
      if k < j {
        PostgresReaches(plan, s0, j, k + 1, db, calls);
      } else {
        var next := plan.exec(plan.bodies[plan.names[k]], db.schema).value;
        PostgresReaches(plan, s0, j, k + 1, Db(next, db.recorded + {plan.names[k]}), calls - 4);
      }
    }
  }

  // If the files can be applied at all, crashes never get in the way: the
  // first run that is not cut short finishes the job.
  lemma PostgresRecovers<S(!new)>(plan: Plan<S>, s0: S, cuts: seq<nat>, calls: nat)
    requires Distinct(plan.names) && Fold(plan, s0, |plan.names|).Some? && calls >= 2 + 4 * |plan.names|
    ensures PostgresRun(plan, PostgresRuns(plan, Db(s0, {}), cuts), calls).done
  {
    var m := PostgresAlwaysPrefix(plan, s0, cuts);
    PostgresReaches(plan, s0, m, 0, PostgresRuns(plan, Db(s0, {}), cuts), calls - 2);
  }

  // ---- ClickHouse ----

  // Executing a file again right after it has been executed does nothing.
  ghost predicate Settled<S(!new)>(plan: Plan<S>, s0: S) {
    forall k :: 0 <= k < |plan.names| && Fold(plan, s0, k + 1).Some? ==>
      plan.exec(plan.bodies[plan.names[k]], Fold(plan, s0, k + 1).value) == Fold(plan, s0, k + 1)
  }

  // What the file convention asks for: idempotence at every schema.
  ghost predicate Idempotent<S(!new)>(exec: (string, S) -> Option<S>, body: string) {
    forall s :: exec(body, s).Some? ==> exec(body, exec(body, s).value) == exec(body, s)
  }

  lemma IdempotentSettles<S(!new)>(plan: Plan<S>, s0: S)
    requires forall name :: name in plan.bodies ==> Idempotent(plan.exec, plan.bodies[name])
    ensures Settled(plan, s0)
  {
    forall k | 0 <= k < |plan.names| && Fold(plan, s0, k + 1).Some?
      ensures plan.exec(plan.bodies[plan.names[k]], Fold(plan, s0, k + 1).value) == Fold(plan, s0, k + 1)
    {
      var body, s := plan.bodies[plan.names[k]], Fold(plan, s0, k).value;
      assert Idempotent(plan.exec, body);
      assert plan.exec(body, s) == Fold(plan, s0, k + 1);
    }
  }

  // Executing file k where it is due, or again where it already took effect.
  lemma NextBody<S(!new)>(plan: Plan<S>, s0: S, k: nat, db: Db<S>)
    requires Settled(plan, s0) && k < |plan.names| && ThroughOrAhead(plan, s0, k, db) && plan.names[k] in plan.bodies
    ensures plan.exec(plan.bodies[plan.names[k]], db.schema) == Fold(plan, s0, k + 1)
  {
  }

  lemma {:induction false} ClickHouseAdvances<S(!new)>(plan: Plan<S>, s0: S, j: nat, k: nat, db: Db<S>, calls: nat)
    returns (m: nat)
    requires Distinct(plan.names) && Settled(plan, s0)
    requires j <= |plan.names| && k <= |plan.names| && ThroughOrAhead(plan, s0, Max(j, k), db)
    ensures var out := ClickHouseFrom(plan, First(plan.names, j), k, db, calls);
            && Max(j, k) <= m && ThroughOrAhead(plan, s0, m, out.db)
            && (out.done ==> m == |plan.names|)
    decreases |plan.names| - k
  {
    hide Settled;
    m := Max(j, k);
    if k < |plan.names| {
      FirstHas(plan.names, j, k);
      FirstGrows(plan.names, k);
      if k < j {
        m := ClickHouseAdvances(plan, s0, j, k + 1, db, calls);
      } else if plan.names[k] in plan.bodies && calls > 0 {
        NextBody(plan, s0, k, db);
        var next := plan.exec(plan.bodies[plan.names[k]], db.schema);
        if next.Some? && calls > 1 {
          m := ClickHouseAdvances(plan, s0, j, k + 1, Db(next.value, db.recorded + {plan.names[k]}), calls - 2);
        }
      }
    }
  }

  function ClickHouseRuns<S>(plan: Plan<S>, db: Db<S>, cuts: seq<nat>): Db<S> {
    if cuts == [] then db
    else ClickHouseRun(plan, ClickHouseRuns(plan, db, cuts[..|cuts| - 1]), cuts[|cuts| - 1]).db
  }

  // At every moment the recorded files are a prefix, and the schema is their
  // fold or one file ahead of it.
  lemma {:induction false} ClickHouseAlwaysPrefix<S(!new)>(plan: Plan<S>, s0: S, cuts: seq<nat>) returns (m: nat)
    requires Distinct(plan.names) && Settled(plan, s0)
    ensures ThroughOrAhead(plan, s0, m, ClickHouseRuns(plan, Db(s0, {}), cuts))
  {
    hide Settled;
    if cuts == [] {
      m := 0;
    } else {
      var before := cuts[..|cuts| - 1];
      m := ClickHouseAlwaysPrefix(plan, s0, before);
      if cuts[|cuts| - 1] >= 2 {
        m := ClickHouseAdvances(plan, s0, m, 0, ClickHouseRuns(plan, Db(s0, {}), before), cuts[|cuts| - 1] - 2);
      }
    }
  }

  lemma ClickHouseDoneMeansFold<S(!new)>(plan: Plan<S>, s0: S, cuts: seq<nat>, calls: nat)
    requires Distinct(plan.names) && Settled(plan, s0)
    requires ClickHouseRun(plan, ClickHouseRuns(plan, Db(s0, {}), cuts), calls).done
    ensures Through(plan, s0, |plan.names|, ClickHouseRun(plan, ClickHouseRuns(plan, Db(s0, {}), cuts), calls).db)
  {
    hide Settled;
    var m := ClickHouseAlwaysPrefix(plan, s0, cuts);
    m := ClickHouseAdvances(plan, s0, m, 0, ClickHouseRuns(plan, Db(s0, {}), cuts), calls - 2);
  }

  lemma ClickHouseSecondRun<S(!new)>(plan: Plan<S>, s0: S, db: Db<S>, calls: nat)
    requires Through(plan, s0, |plan.names|, db)
    ensures ClickHouseRun(plan, db, calls) == Outcome(db, calls >= 2)
  {
    if calls >= 2 {
      AllSkipped(plan, 0, db, calls - 2);
    }
  }

  lemma {:induction false} ClickHouseReaches<S(!new)>(plan: Plan<S>, s0: S, j: nat, k: nat, db: Db<S>, calls: nat)
    requires Distinct(plan.names) && Settled(plan, s0)
    requires j <= |plan.names| && k <= |plan.names| && ThroughOrAhead(plan, s0, Max(j, k), db)
    requires Fold(plan, s0, |plan.names|).Some? && calls >= 2 * (|plan.names| - k)
    ensures ClickHouseFrom(plan, First(plan.names, j), k, db, calls).done
    decreases |plan.names| - k
  {
    hide Settled;
    if k < |plan.names| {
      FirstHas(plan.names, j, k);
      FirstGrows(plan.names, k);
      FoldPrefix(plan, s0, k + 1, |plan.names|);
      if k < j {
        ClickHouseReaches(plan, s0, j, k + 1, db, calls);
      } else {
        NextBody(plan, s0, k, db);
        var next := plan.exec(plan.bodies[plan.names[k]], db.schema).value;
        ClickHouseReaches(plan, s0, j, k + 1, Db(next, db.recorded + {plan.names[k]}), calls - 2);
      }
    }
  }

  lemma ClickHouseRecovers<S(!new)>(plan: Plan<S>, s0: S, cuts: seq<nat>, calls: nat)
    requires Distinct(plan.names) && Settled(plan, s0)
    requires Fold(plan, s0, |plan.names|).Some? && calls >= 2 + 2 * |plan.names|
    ensures ClickHouseRun(plan, ClickHouseRuns(plan, Db(s0, {}), cuts), calls).done
  {
    hide Settled;
    var m := ClickHouseAlwaysPrefix(plan, s0, cuts);
    ClickHouseReaches(plan, s0, m, 0, ClickHouseRuns(plan, Db(s0, {}), cuts), calls - 2);
  }

  lemma {:induction false} StopsAt<S(!new)>(plan: Plan<S>, s0: S, i: nat, k: nat, db: Db<S>)
    requires Distinct(plan.names) && i <= k <= |plan.names| && Through(plan, s0, i, db) && Fold(plan, s0, k).Some?
    ensures ClickHouseFrom(plan, {}, i, db, 2 * (k - i)).db == Db(Fold(plan, s0, k).value, First(plan.names, k))
    decreases k - i
  {
    if i < k {
      FirstGrows(plan.names, i);
      FoldPrefix(plan, s0, i + 1, k);
      var next := plan.exec(plan.bodies[plan.names[i]], db.schema).value;
      StopsAt(plan, s0, i + 1, k, Db(next, db.recorded + {plan.names[i]}));
    }
  }

  lemma {:induction false} SkipsTo<S(!new)>(plan: Plan<S>, i: nat, k: nat, db: Db<S>, calls: nat)
    requires i <= k <= |plan.names|
    ensures ClickHouseFrom(plan, First(plan.names, k), i, db, calls) == ClickHouseFrom(plan, First(plan.names, k), k, db, calls)
    decreases k - i
  {
    if i < k {
      SkipsTo(plan, i + 1, k, db, calls);
    }
  }

  // The condition cannot be weakened: record the first k files, crash between
  // the two statements of the next one, and let a run record that file. The
  // result is right exactly when executing the file again changes nothing.
  lemma CrashHarmlessIff<S(!new)>(plan: Plan<S>, s0: S, k: nat)
    requires Distinct(plan.names) && k < |plan.names| && Fold(plan, s0, k + 1).Some?
    ensures ClickHouseRuns(plan, Db(s0, {}), [2 + 2 * k, 3, 4]) == Db(Fold(plan, s0, k + 1).value, First(plan.names, k + 1))
       <==> plan.exec(plan.bodies[plan.names[k]], Fold(plan, s0, k + 1).value) == Fold(plan, s0, k + 1)
  {
    hide ClickHouseFrom;
    var names, c := plan.names, [2 + 2 * k, 3, 4];
    var start := Db(s0, {});
    var s, t := Fold(plan, s0, k).value, Fold(plan, s0, k + 1).value;
    StopsAt(plan, s0, 0, k, start);
    var one := Db(s, First(names, k));
    assert c[..3] == c && c[..2][..1] == c[..1] && c[..1][..0] == [] && c[..2] == [2 + 2 * k, 3];
    assert ClickHouseRuns(plan, start, c[..1]) == one;
    var two := Db(t, First(names, k));
    CutBetween(plan, s0, k);
    assert ClickHouseRuns(plan, start, c[..2]) == two;
    OneMoreFile(plan, k, t);
    FirstGrows(names, k);
  }

  lemma CutBetween<S(!new)>(plan: Plan<S>, s0: S, k: nat)
    requires Distinct(plan.names) && k < |plan.names| && Fold(plan, s0, k + 1).Some?
    ensures var names := plan.names;
            ClickHouseRun(plan, Db(Fold(plan, s0, k).value, First(names, k)), 3).db == Db(Fold(plan, s0, k + 1).value, First(names, k))
  {
    var db := Db(Fold(plan, s0, k).value, First(plan.names, k));
    FirstGrows(plan.names, k);
    SkipsTo(plan, 0, k, db, 1);
  }

  lemma OneMoreFile<S(!new)>(plan: Plan<S>, k: nat, t: S)
    requires Distinct(plan.names) && k < |plan.names| && plan.names[k] in plan.bodies
    ensures var again := plan.exec(plan.bodies[plan.names[k]], t);
            ClickHouseRun(plan, Db(t, First(plan.names, k)), 4).db ==
            if again.Some? then Db(again.value, First(plan.names, k + 1)) else Db(t, First(plan.names, k))
  {
    var db := Db(t, First(plan.names, k));
    FirstGrows(plan.names, k);
    SkipsTo(plan, 0, k, db, 2);
    var again := plan.exec(plan.bodies[plan.names[k]], t);
    if again.Some? {
      OutOfCalls(plan, First(plan.names, k), k + 1, Db(again.value, First(plan.names, k + 1)));
    }
  }

  lemma {:induction false} OutOfCalls<S(!new)>(plan: Plan<S>, applied: set<string>, k: nat, db: Db<S>)
    requires k <= |plan.names|
    ensures ClickHouseFrom(plan, applied, k, db, 0).db == db
    decreases |plan.names| - k
  {
    if k < |plan.names| {
      OutOfCalls(plan, applied, k + 1, db);
    }
  }

  // Without idempotence a crash between the two statements shows: a file that
  // counts up is executed twice and recorded once.
  lemma CrashRepeatsABody()
    ensures var plan := Plan(["1.sql"], map["1.sql" := "count"], (_, n: int) => Some(n + 1));
            && ClickHouseRuns(plan, Db(0, {}), [3]) == Db(1, {})
            && ClickHouseRuns(plan, Db(0, {}), [3, 4]) == Db(2, {"1.sql"})
            && Fold(plan, 0, 1) == Some(1)
            && PostgresRuns(plan, Db(0, {}), [3, 6]) == Db(1, {"1.sql"})
  {
    var plan := Plan(["1.sql"], map["1.sql" := "count"], (_, n: int) => Some(n + 1));
    assert [3, 4][..1] == [3] && [3][..0] == [] && [3, 6][..1] == [3];
    assert ClickHouseRuns(plan, Db(0, {}), [3]) == ClickHouseRun(plan, Db(0, {}), 3).db;
    assert PostgresRuns(plan, Db(0, {}), [3]) == PostgresRun(plan, Db(0, {}), 3).db;
  }

  // ---- The order ----

  // With the names in lexicographic order, whatever is recorded comes before
  // whatever is not.
  lemma RecordedComeFirst<S(!new)>(plan: Plan<S>, s0: S, k: nat, db: Db<S>, a: string, b: string)
    requires Sorted(plan.names, TextLeq) && Distinct(plan.names) && ThroughOrAhead(plan, s0, k, db)
    requires a in db.recorded && b in plan.names && b !in db.recorded
    ensures TextLeq(a, b) && a != b
  {
    var i :| 0 <= i < k && plan.names[i] == a;
    var j :| 0 <= j < |plan.names| && plan.names[j] == b;
    assert i < j;
  }
}
