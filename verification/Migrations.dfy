// Applying schema files: one transaction per file (pkg/store/postgres/migrate.go)
// and two separate statements per file (pkg/store/clickhouse/schema.go). A run
// may be cut off after any number of database calls.

module Migrations {
  import opened Options
  import opened Sorting

  datatype Entry = Entry(name: string, isDir: bool)

  // What a run works from: the sorted file names, their texts, and what
  // executing a text does to a schema (None: the database refuses it).
  datatype Plan<!S> = Plan(names: seq<string>, bodies: map<string, string>, exec: (string, S) -> Option<S>)

  // The schema and the names in the tracking table.
  datatype Db<S> = Db(schema: S, recorded: set<string>)

  // ---- The files ----

  predicate HasSuffix(s: string, suffix: string) {
    |s| >= |suffix| && s[|s| - |suffix|..] == suffix
  }

  predicate IsSqlFile(e: Entry) {
    !e.isDir && HasSuffix(e.name, ".sql")
  }

  function Picked(entries: seq<Entry>): seq<string> {
    if entries == [] then []
    else
      var k := |entries| - 1;
      Picked(entries[..k]) + if IsSqlFile(entries[k]) then [entries[k].name] else []
  }

  function SqlNames(entries: seq<Entry>): seq<string> {
    Sort(Picked(entries), TextLeq)
  }

  method ListSqlFiles(entries: seq<Entry>) returns (files: seq<string>)
    ensures files == SqlNames(entries)
  {
    hide Sort;
    files := [];
    for i := 0 to |entries|
      invariant files == Picked(entries[..i])
    {
      assert entries[..i + 1][..i] == entries[..i];
      if entries[i].isDir {
        continue;
      }
      var name := entries[i].name;
      if !HasSuffix(name, ".sql") {
        continue;
      }
      files := files + [name];
    }
    assert entries[..|entries|] == entries;
    files := Sort(files, TextLeq);
  }

  predicate Distinct(names: seq<string>) {
    forall i, j :: 0 <= i < j < |names| ==> names[i] != names[j]
  }

  ghost predicate DistinctEntries(entries: seq<Entry>) {
    forall i, j :: 0 <= i < j < |entries| ==> entries[i].name != entries[j].name
  }

  // A file, not a directory, whose name ends in .sql.
  ghost predicate IsPicked(entries: seq<Entry>, name: string) {
    && |name| >= 4 && name[|name| - 4..] == ".sql"
    && exists i :: 0 <= i < |entries| && entries[i].name == name && !entries[i].isDir
  }

  lemma SqlFiles(e: Entry)
    ensures IsSqlFile(e) <==> !e.isDir && |e.name| >= 4 && e.name[|e.name| - 4..] == ".sql"
  {
  }

  lemma {:induction false} PickedExactly(entries: seq<Entry>, name: string)
    ensures name in Picked(entries) <==> IsPicked(entries, name)
  {
    hide IsSqlFile;
    if entries != [] {
      var k := |entries| - 1;
      PickedExactly(entries[..k], name);
      SqlFiles(entries[k]);
      if IsPicked(entries[..k], name) {
        var i :| 0 <= i < k && entries[..k][i].name == name && !entries[..k][i].isDir;
        assert entries[i].name == name && !entries[i].isDir;
      }
      if i :| 0 <= i < |entries| && entries[i].name == name && !entries[i].isDir {
        assert i < k ==> entries[..k][i].name == name && !entries[..k][i].isDir;
      }
    }
  }

  lemma {:induction false} PickedDistinct(entries: seq<Entry>)
    requires DistinctEntries(entries)
    ensures Distinct(Picked(entries))
  {
    hide IsSqlFile;
    if entries != [] {
      var k := |entries| - 1;
      PickedDistinct(entries[..k]);
      PickedExactly(entries[..k], entries[k].name);
      assert entries[k].name !in Picked(entries[..k]);
    }
  }

  // The list a run goes through: exactly the .sql files, each once, in
  // lexicographic order.
  lemma SqlNamesExactly(entries: seq<Entry>)
    requires DistinctEntries(entries)
    ensures forall name :: name in SqlNames(entries) <==> IsPicked(entries, name)
    ensures Distinct(SqlNames(entries)) && Sorted(SqlNames(entries), TextLeq)
  {
    hide IsPicked, Sort;
    forall name ensures name in Picked(entries) <==> IsPicked(entries, name) {
      PickedExactly(entries, name);
    }
    PickedDistinct(entries);
    TextOrder();
    SortSorts(Picked(entries), TextLeq);
    SameElements(Picked(entries), SqlNames(entries));
    DistinctPermuted(Picked(entries), SqlNames(entries));
  }

  lemma {:induction false} DistinctPermuted(xs: seq<string>, ys: seq<string>)
    requires Distinct(xs) && multiset(xs) == multiset(ys)
    ensures Distinct(ys)
    decreases |xs|
  {
    if xs != [] {
      var a, b := TakeOut(xs, ys);
      assert Distinct(xs[1..]);
      DistinctPermuted(xs[1..], a + b);
      SameElements(xs[1..], a + b);
      var x := xs[0];
      assert x !in xs[1..];
      InsertDistinct(a, x, b);
    }
  }

  lemma InsertDistinct(a: seq<string>, x: string, b: seq<string>)
    requires Distinct(a + b) && x !in a + b
    ensures Distinct(a + ([x] + b))
  {
    var ys, zs := a + ([x] + b), a + b;
    forall i, j | 0 <= i < j < |ys| ensures ys[i] != ys[j] {
      var p, q := |a|, (k: int) => if k < |a| then k else k - 1;
      assert i != p ==> ys[i] == zs[q(i)];
      assert j != p ==> ys[j] == zs[q(j)];
      assert i == p ==> zs[q(j)] in a + b;
      assert j == p ==> zs[q(i)] in a + b;
    }
  }

  // ---- What a run leaves behind ----

  // The first k names.
  function First(names: seq<string>, k: nat): set<string>
    requires k <= |names|
  {
    set i | 0 <= i < k :: names[i]
  }

  // Each of the first k files executed once, in order.
  function Fold<S>(plan: Plan<S>, s: S, k: nat): Option<S>
    requires k <= |plan.names|
  {
    if k == 0 then Some(s)
    else
      var before := Fold(plan, s, k - 1);
      if before.None? || plan.names[k - 1] !in plan.bodies then None
      else plan.exec(plan.bodies[plan.names[k - 1]], before.value)
  }

  datatype Outcome<S> = Outcome(db: Db<S>, done: bool)

  // Postgres, from file k on: begin, execute, record, commit. Cut off before
  // the commit, the file leaves nothing.
  function PostgresFrom<S>(plan: Plan<S>, applied: set<string>, k: nat, db: Db<S>, calls: nat): Outcome<S>
    requires k <= |plan.names|
    decreases |plan.names| - k
  {
    if k == |plan.names| then Outcome(db, true)
    else if plan.names[k] in applied then PostgresFrom(plan, applied, k + 1, db, calls)
    else if plan.names[k] !in plan.bodies || calls < 4 then Outcome(db, false)
    else
      match plan.exec(plan.bodies[plan.names[k]], db.schema)
      case None => Outcome(db, false)
      case Some(t) => PostgresFrom(plan, applied, k + 1, Db(t, db.recorded + {plan.names[k]}), calls - 4)
  }

  function PostgresRun<S>(plan: Plan<S>, db: Db<S>, calls: nat): Outcome<S> {
    if calls < 2 then Outcome(db, false) else PostgresFrom(plan, db.recorded, 0, db, calls - 2)
  }

  // ClickHouse, from file k on: execute, then record. Cut off in between, the
  // file is in effect but not recorded.
  function ClickHouseFrom<S>(plan: Plan<S>, applied: set<string>, k: nat, db: Db<S>, calls: nat): Outcome<S>
    requires k <= |plan.names|
    decreases |plan.names| - k
  {
    if k == |plan.names| then Outcome(db, true)
    else if plan.names[k] in applied then ClickHouseFrom(plan, applied, k + 1, db, calls)
    else if plan.names[k] !in plan.bodies || calls == 0 then Outcome(db, false)
    else
      match plan.exec(plan.bodies[plan.names[k]], db.schema)
      case None => Outcome(db, false)
      case Some(t) =>
        if calls == 1 then Outcome(Db(t, db.recorded), false)
        else ClickHouseFrom(plan, applied, k + 1, Db(t, db.recorded + {plan.names[k]}), calls - 2)
  }

  function ClickHouseRun<S>(plan: Plan<S>, db: Db<S>, calls: nat): Outcome<S> {
    if calls < 2 then Outcome(db, false) else ClickHouseFrom(plan, db.recorded, 0, db, calls - 2)
  }

  // ---- The runners ----

  // A Postgres server with at most one open transaction, and the number of
  // calls it still answers before the connection is gone.
  class Postgres<S> {
    const exec: (string, S) -> Option<S>
    var schema: S
    var recorded: set<string>
    var open: Option<Db<S>>
    var calls: nat

    constructor (exec: (string, S) -> Option<S>, db: Db<S>, calls: nat)
      ensures this.exec == exec && schema == db.schema && recorded == db.recorded && open == None && this.calls == calls
    {
      this.exec := exec;
      schema := db.schema;
      recorded := db.recorded;
      open := None;
      this.calls := calls;
    }

    function Committed(): Db<S>
      reads this
    {
      Db(schema, recorded)
    }

    method Call() returns (ok: bool)
      modifies this`calls
      ensures ok <==> old(calls) > 0
      ensures calls == if ok then old(calls) - 1 else 0
    {
      ok := calls > 0;
      if ok {
        calls := calls - 1;
      }
    }

    // Body and record inside one transaction; a transaction that does not
    // reach its commit is rolled back.
    method ApplyOne(name: string, body: string) returns (ok: bool)
      requires open.None?
      modifies this
      ensures open.None?
      ensures ok <==> old(calls) >= 4 && exec(body, old(schema)).Some?
      ensures ok ==> calls == old(calls) - 4 && Committed() == Db(exec(body, old(schema)).value, old(recorded) + {name})
      ensures !ok ==> Committed() == old(Committed())
    {
      ok := Call();
      if !ok {
        return;
      }
      open := Some(Committed());
      ok := Call();
      if !ok || exec(body, open.value.schema).None? {
        open := None;
        return false;
      }
      open := Some(Db(exec(body, open.value.schema).value, open.value.recorded));
      ok := Call();
      if !ok {
        open := None;
        return;
      }
      open := Some(Db(open.value.schema, open.value.recorded + {name}));
      ok := Call();
      if !ok {
        open := None;
        return;
      }
      schema, recorded, open := open.value.schema, open.value.recorded, None;
    }

    method Migrate(plan: Plan<S>) returns (done: bool)
      requires plan.exec == exec && open.None?
      modifies this
      ensures open.None?
      ensures Outcome(Committed(), done) == PostgresRun(plan, old(Committed()), old(calls))
    {
      var ok := Call();
      if !ok {
        return false;
      }
      ok := Call();
      if !ok {
        return false;
      }
      var applied := recorded;
      ghost var want := PostgresRun(plan, old(Committed()), old(calls));
      for k := 0 to |plan.names|
        invariant open.None?
        invariant want == PostgresFrom(plan, applied, k, Committed(), calls)
      {
        var name := plan.names[k];
        if name in applied {
          continue;
        }
        if name !in plan.bodies {
          return false;
        }
        ok := ApplyOne(name, plan.bodies[name]);
        if !ok {
          return false;
        }
      }
      return true;
    }
  }

  // A ClickHouse server: every statement takes effect on its own.
  class ClickHouse<S> {
    const exec: (string, S) -> Option<S>
    var schema: S
    var recorded: set<string>
    var calls: nat

    constructor (exec: (string, S) -> Option<S>, db: Db<S>, calls: nat)
      ensures this.exec == exec && Contents() == db && this.calls == calls
    {
      this.exec := exec;
      schema := db.schema;
      recorded := db.recorded;
      this.calls := calls;
    }

    function Contents(): Db<S>
      reads this
    {
      Db(schema, recorded)
    }

    method Call() returns (ok: bool)
      modifies this`calls
      ensures ok <==> old(calls) > 0
      ensures calls == if ok then old(calls) - 1 else 0
    {
      ok := calls > 0;
      if ok {
        calls := calls - 1;
      }
    }

    method ApplyOne(name: string, body: string) returns (ok: bool)
      modifies this
      ensures ok <==> old(calls) >= 2 && exec(body, old(schema)).Some?
      ensures ok ==> calls == old(calls) - 2 && Contents() == Db(exec(body, old(schema)).value, old(recorded) + {name})
      ensures !ok && old(calls) == 1 && exec(body, old(schema)).Some? ==>
                Contents() == Db(exec(body, old(schema)).value, old(recorded))
      ensures !ok && (old(calls) != 1 || exec(body, old(schema)).None?) ==> Contents() == old(Contents())
    {
      ok := Call();
      if !ok || exec(body, schema).None? {
        return false;
      }
      schema := exec(body, schema).value;
      ok := Call();
      if !ok {
        return;
      }
      recorded := recorded + {name};
    }

    method Apply(plan: Plan<S>) returns (done: bool)
      requires plan.exec == exec
      modifies this
      ensures Outcome(Contents(), done) == ClickHouseRun(plan, old(Contents()), old(calls))
    {
      var ok := Call();
      if !ok {
        return false;
      }
      ok := Call();
      if !ok {
        return false;
      }
      var applied := recorded;
      ghost var want := ClickHouseRun(plan, old(Contents()), old(calls));
      for k := 0 to |plan.names|
        invariant want == ClickHouseFrom(plan, applied, k, Contents(), calls)
      {
        var name := plan.names[k];
        if name in applied {
          continue;
        }
        if name !in plan.bodies {
          return false;
        }
        ok := ApplyOne(name, plan.bodies[name]);
        if !ok {
          return false;
        }
      }
      return true;
    }
  }
}
