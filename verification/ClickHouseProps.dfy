// The emitted WHERE clause means what the query says, and every placeholder
// in it belongs to exactly one argument.

module ClickHouseProps {
  import opened Options
  import opened Decimal
  import opened Sorting
  import opened NetqlTypes
  import opened MetricRegistry
  import opened TypeCheck
  import opened Sql
  import opened ClickHouse
  import LexerProps
  import Parser
  import RoundTrip

  // ---- What a filter means for a row ----

  // The cell equals the literal.
  predicate IsLiteral(cell: SqlVal, v: Value) {
    match v
    case ValString(s) => cell == SStr(s)
    case ValNumber(x) => cell == SNum(x)
    case _ => false
  }

  ghost predicate LeafHolds(p: Predicate, spec: MetricSpec, env: Env) {
    var cell := if p.field in spec.filter then Column(env, spec.filter[p.field].column) else None;
    && cell.Some?
    && match p.op
       case OpEq => IsLiteral(cell.value, p.value)
       case OpNe => !IsLiteral(cell.value, p.value)
       case OpIn =>
         (match p.value
          case ValStringList(ss) => exists s <- ss :: cell.value == SStr(s)
          case ValNumberList(ns) => exists x <- ns :: cell.value == SNum(x)
          case _ => false)
       case OpContains => cell.value.SStr? && p.value.ValString? && Contains(cell.value.s, p.value.s)
       case OpMatches => cell.value.SStr? && p.value.ValString? && env.rx(cell.value.s, p.value.s)
       case op => cell.value.SNum? && p.value.ValNumber? && Orders(op, cell.value.n, p.value.n)
  }

  ghost predicate Holds(e: Expr, spec: MetricSpec, env: Env) {
    match e
    case Pred(p) => LeafHolds(p, spec, env)
    case And(terms) => forall t <- terms :: Holds(t, spec, env)
    case Or(terms) => exists t <- terms :: Holds(t, spec, env)
    case Not(inner) => !Holds(inner, spec, env)
  }

  function NetqlSeconds(unit: char): real {
    if unit == 's' then 1.0
    else if unit == 'm' then 60.0
    else if unit == 'h' then 3600.0
    else if unit == 'd' then 86400.0
    else 604800.0
  }

  // The time range a query asks for: one hour unless it says otherwise.
  function WindowSeconds(over: Option<Duration>): real {
    match over
    case None => 3600.0
    case Some(d) => d.count as real * NetqlSeconds(d.unit)
  }

  // The row belongs to the tenant, is recent enough, and passes the filter.
  ghost predicate Selected(q: Query, spec: MetricSpec, tenant: string, env: Env) {
    && Column(env, "tenant_id") == Some(SStr(tenant))
    && (match Column(env, "observed_at")
        case Some(SNum(t)) => t >= env.now - WindowSeconds(q.over)
        case _ => false)
    && (q.filter.Some? ==> Holds(q.filter.value, spec, env))
  }

  lemma {:induction false} WfShaped(e: Expr)
    requires RoundTrip.WfExpr(e)
    ensures Shaped(e)
    decreases e
  {
    match e
    case Pred(p) =>
    case And(terms) => forall t <- terms ensures Shaped(t) { WfShaped(t); }
    case Or(terms) => forall t <- terms ensures Shaped(t) { WfShaped(t); }
    case Not(inner) => WfShaped(inner);
  }

  // ---- The condition a reader finds in the emitted text ----

  function CondPredicate(p: Predicate, spec: MetricSpec, n: nat): Cond {
    var col := ColumnOf(spec, p.field);
    match p.op
    case OpIn => CAtom(InList(col, Sort(Range(n + 1, |ListArgs(p.value)|), PlaceholderLeq)))
    case OpContains => CAtom(Call("position", col, n + 1, true))
    case OpMatches => CAtom(Call("match", col, n + 1, false))
    case op => CAtom(Compare(col, op, n + 1))
  }

  function CondExpr(e: Expr, spec: MetricSpec, n: nat): Cond
    requires Shaped(e)
    decreases e, 1
  {
    match e
    case Pred(p) => CondPredicate(p, spec, n)
    case And(terms) => CondJoin(true, terms, spec, n)
    case Or(terms) => CondJoin(false, terms, spec, n)
    case Not(inner) => CNot(CondExpr(inner, spec, n))
  }

  function CondJoin(conj: bool, es: seq<Expr>, spec: MetricSpec, n: nat): Cond
    requires es != [] && forall t <- es :: Shaped(t)
    decreases es, 0
  {
    var c := CondExpr(es[0], spec, n);
    if |es| == 1 then c
    else
      var d := CondJoin(conj, es[1..], spec, n + |EmitExpr(es[0], spec, n).args|);
      if conj then CAnd(c, d) else COr(c, d)
  }

  // ---- Reading gives that condition ----

  // What may stand behind a condition: nothing, AND, OR or ")".
  predicate Ends(rest: seq<SqlTok>) {
    rest == [] || rest[0] == SqlAnd || rest[0] == SqlOr || rest[0] == SqlRParen
  }

  lemma {:induction false} ParamsRead(ks: seq<nat>, rest: seq<SqlTok>)
    requires ks != []
    ensures ReadParams(ParamList(ks) + ([SqlRParen] + rest)) == Got(ks, rest)
  {
    hide ReadParams;
    var ts := ParamList(ks) + ([SqlRParen] + rest);
    LastRead(ks[0], rest);
    if |ks| == 1 {
      assert ts == [SqlParam(ks[0]), SqlRParen] + rest && ks == [ks[0]];
    } else {
      var more := ParamList(ks[1..]) + ([SqlRParen] + rest);
      ParamsRead(ks[1..], rest);
      assert ts == [SqlParam(ks[0]), SqlComma] + more;
      NextRead(ks[0], more, ks[1..], rest);
      assert [ks[0]] + ks[1..] == ks;
    }
  }

  lemma LastRead(k: nat, rest: seq<SqlTok>)
    ensures ReadParams([SqlParam(k), SqlRParen] + rest) == Got([k], rest)
  {
    assert ([SqlParam(k), SqlRParen] + rest)[2..] == rest;
  }

  lemma NextRead(k: nat, ts: seq<SqlTok>, ks: seq<nat>, rest: seq<SqlTok>)
    requires ReadParams(ts) == Got(ks, rest)
    ensures ReadParams([SqlParam(k), SqlComma] + ts) == Got([k] + ks, rest)
  {
    assert ([SqlParam(k), SqlComma] + ts)[2..] == ts;
  }

  lemma AtomReads(ts: seq<SqlTok>, a: Atom, rest: seq<SqlTok>)
    requires ts != [] && ts[0].SqlName? && ReadAtom(ts) == Got(a, rest)
    ensures ReadNot(ts) == Got(CAtom(a), rest)
  {
    hide ReadAtom;
  }

  lemma ListReads(col: string, ks: seq<nat>, rest: seq<SqlTok>)
    requires ks != []
    ensures ReadAtom([SqlName(col), SqlIn, SqlLParen] + (ParamList(ks) + [SqlRParen]) + rest) == Got(InList(col, ks), rest)
  {
    hide ReadParams, ParamList;
    var ts := [SqlName(col), SqlIn, SqlLParen] + (ParamList(ks) + [SqlRParen]) + rest;
    ParamsRead(ks, rest);
    assert ts == [SqlName(col), SqlIn, SqlLParen] + (ParamList(ks) + ([SqlRParen] + rest));
    assert ts[3..] == ParamList(ks) + ([SqlRParen] + rest);
  }

  lemma CallReads(fn: string, col: string, v: Value, n: nat, positive: bool, rest: seq<SqlTok>)
    requires Ends(rest)
    ensures var ts := EmitCall(fn, col, v, n, positive).sql + rest;
            ts != [] && ts[0] == SqlName(fn) && ReadAtom(ts) == Got(Call(fn, col, n + 1, positive), rest)
  {
    hide ReadParams;
    var ts := EmitCall(fn, col, v, n, positive).sql + rest;
    assert ts[if positive then 8 else 6..] == rest;
  }

  lemma CompareReads(col: string, op: Op, k: nat, rest: seq<SqlTok>)
    ensures ReadAtom([SqlName(col), SqlCmp(op), SqlParam(k)] + rest) == Got(Compare(col, op, k), rest)
  {
    assert ([SqlName(col), SqlCmp(op), SqlParam(k)] + rest)[3..] == rest;
  }

  // What a fitting leaf's literal looks like.
  lemma LeafShape(p: Predicate, spec: MetricSpec)
    requires LeafFits(p, spec)
    ensures p.op.OpIn? <==> p.value.ValStringList? || p.value.ValNumberList?
    ensures p.op.OpContains? || p.op.OpMatches? ==> p.value.ValString?
  {
  }

  // The text of a leaf begins with a name and reads as one comparison.
  ghost predicate LeafReads(p: Predicate, spec: MetricSpec, n: nat, rest: seq<SqlTok>) {
    var ts := EmitPredicate(p, spec, n).sql + rest;
    var c := CondPredicate(p, spec, n);
    ts != [] && ts[0].SqlName? && c.CAtom? && ReadAtom(ts) == Got(c.a, rest)
  }

  lemma ListLeafReads(p: Predicate, spec: MetricSpec, n: nat, rest: seq<SqlTok>)
    requires p.op.OpIn? && (p.value.ValStringList? || p.value.ValNumberList?) && ListArgs(p.value) != []
    ensures LeafReads(p, spec, n, rest)
  {
    hide ReadAtom, ParamList, Sort, Range, ListArgs, EmitScalar, EmitCall, ColumnOf;
    ListReads(ColumnOf(spec, p.field), Sort(Range(n + 1, |ListArgs(p.value)|), PlaceholderLeq), rest);
  }

  lemma CallLeafReads(p: Predicate, spec: MetricSpec, n: nat, rest: seq<SqlTok>)
    requires (p.op.OpContains? || p.op.OpMatches?) && Ends(rest)
    ensures LeafReads(p, spec, n, rest)
  {
    hide ReadAtom, Sort, Range, Ends, EmitCall, EmitScalar, EmitList, ColumnOf;
    if p.op.OpContains? {
      CallReads("position", ColumnOf(spec, p.field), p.value, n, true, rest);
    } else {
      CallReads("match", ColumnOf(spec, p.field), p.value, n, false, rest);
    }
  }

  lemma ScalarLeafReads(p: Predicate, spec: MetricSpec, n: nat, rest: seq<SqlTok>)
    requires p.op !in {OpIn, OpContains, OpMatches} && (p.value.ValString? || p.value.ValNumber?)
    ensures LeafReads(p, spec, n, rest)
  {
    hide ReadAtom, Sort, Range, EmitScalar, EmitList, EmitCall, ColumnOf;
    ScalarText(ColumnOf(spec, p.field), p.op, p.value, n);
    CompareReads(ColumnOf(spec, p.field), p.op, n + 1, rest);
  }

  lemma ScalarText(col: string, op: Op, v: Value, n: nat)
    requires v.ValString? || v.ValNumber?
    ensures EmitScalar(col, op, v, n).sql == [SqlName(col), SqlCmp(op), SqlParam(n + 1)]
  {
  }

  lemma PredicateReads(p: Predicate, spec: MetricSpec, n: nat, rest: seq<SqlTok>)
    requires LeafFits(p, spec) && Shaped(Pred(p)) && Ends(rest)
    ensures ReadNot(EmitPredicate(p, spec, n).sql + rest) == Got(CondPredicate(p, spec, n), rest)
  {
    hide ReadAtom, ReadNot, EmitPredicate, CondPredicate;
    LeafShape(p, spec);
    if p.op.OpIn? {
      ListLeafReads(p, spec, n, rest);
    } else if p.op.OpContains? || p.op.OpMatches? {
      CallLeafReads(p, spec, n, rest);
    } else {
      ScalarLeafReads(p, spec, n, rest);
    }
    AtomReads(EmitPredicate(p, spec, n).sql + rest, CondPredicate(p, spec, n).a, rest);
  }

  // A condition in parentheses reads as that condition.
  lemma GroupReads(ts: seq<SqlTok>, c: Cond, rest: seq<SqlTok>)
    requires ReadOr(ts + ([SqlRParen] + rest)) == Got(c, [SqlRParen] + rest)
    ensures ReadNot([SqlLParen] + (ts + [SqlRParen]) + rest) == Got(c, rest)
  {
    hide ReadOr;
    var us := [SqlLParen] + (ts + [SqlRParen]) + rest;
    assert us[1..] == ts + ([SqlRParen] + rest) && ([SqlRParen] + rest)[1..] == rest;
  }

  // At the end of a group a single operand is the whole condition.
  lemma OperandReads(ts: seq<SqlTok>, c: Cond, rest: seq<SqlTok>)
    requires ReadNot(ts) == Got(c, rest) && Ends(rest) && (rest == [] || rest[0] == SqlRParen)
    ensures ReadOr(ts) == Got(c, rest)
  {
    hide ReadNot;
    assert ReadAnd(ts) == Got(c, rest);
  }

  lemma NotReads(ts: seq<SqlTok>, c: Cond, rest: seq<SqlTok>)
    requires ReadNot(ts) == Got(c, rest)
    ensures ReadNot([SqlNot] + ts) == Got(CNot(c), rest)
  {
    hide ReadOr;
    assert ([SqlNot] + ts)[1..] == ts;
  }

  lemma {:induction false} ExprReads(e: Expr, spec: MetricSpec, n: nat, rest: seq<SqlTok>)
    requires Fits(e, spec) && Shaped(e) && Ends(rest)
    ensures ReadNot(EmitExpr(e, spec, n).sql + rest) == Got(CondExpr(e, spec, n), rest)
    decreases e, 1
  {
    hide EmitPredicate, CondPredicate, ReadNot, ReadAnd, ReadOr, LeafFits;
    var ts := EmitExpr(e, spec, n).sql + rest;
    match e
    case Pred(p) =>
      assert p in Leaves(e);
      PredicateReads(p, spec, n, rest);
    case And(terms) =>
      AndReads(terms, spec, n, [SqlRParen] + rest);
      AndThenOr(EmitJoin(SqlAnd, terms, spec, n).sql + ([SqlRParen] + rest));
      GroupReads(EmitJoin(SqlAnd, terms, spec, n).sql, CondExpr(e, spec, n), rest);
    case Or(terms) =>
      OrReads(terms, spec, n, [SqlRParen] + rest);
      GroupReads(EmitJoin(SqlOr, terms, spec, n).sql, CondExpr(e, spec, n), rest);
    case Not(inner) =>
      var x, c := EmitExpr(inner, spec, n).sql, CondExpr(inner, spec, n);
      ExprReads(inner, spec, n, [SqlRParen] + rest);
      OperandReads(x + ([SqlRParen] + rest), c, [SqlRParen] + rest);
      GroupReads(x, c, rest);
      NotReads([SqlLParen] + (x + [SqlRParen]) + rest, c, rest);
      assert ts == [SqlNot] + ([SqlLParen] + (x + [SqlRParen]) + rest);
  }

  lemma AndThenOr(ts: seq<SqlTok>)
    requires ReadAnd(ts).Got? && Peek(ReadAnd(ts).rest) != Some(SqlOr)
    ensures ReadOr(ts) == ReadAnd(ts)
  {
    hide ReadAnd;
  }

  lemma {:induction false} AndReads(es: seq<Expr>, spec: MetricSpec, n: nat, rest: seq<SqlTok>)
    requires es != [] && (forall e <- es :: Shaped(e)) && (forall p <- AllLeaves(es) :: LeafFits(p, spec))
    requires Ends(rest) && Peek(rest) != Some(SqlAnd)
    ensures ReadAnd(EmitJoin(SqlAnd, es, spec, n).sql + rest) == Got(CondJoin(true, es, spec, n), rest)
    decreases es, 0
  {
    hide LeafFits, ReadNot, EmitExpr, CondExpr;
    var x := EmitExpr(es[0], spec, n);
    if |es| == 1 {
      ExprReads(es[0], spec, n, rest);
    } else {
      var y := EmitJoin(SqlAnd, es[1..], spec, n + |x.args|).sql;
      var tail := [SqlAnd] + (y + rest);
      ExprReads(es[0], spec, n, tail);
      AndReads(es[1..], spec, n + |x.args|, rest);
      assert EmitJoin(SqlAnd, es, spec, n).sql + rest == x.sql + tail;
      assert tail[1..] == y + rest;
    }
  }

  lemma {:induction false} OrReads(es: seq<Expr>, spec: MetricSpec, n: nat, rest: seq<SqlTok>)
    requires es != [] && (forall e <- es :: Shaped(e)) && (forall p <- AllLeaves(es) :: LeafFits(p, spec))
    requires Peek(rest) == Some(SqlRParen)
    ensures ReadOr(EmitJoin(SqlOr, es, spec, n).sql + rest) == Got(CondJoin(false, es, spec, n), rest)
    decreases es, 0
  {
    hide LeafFits, ReadNot, EmitExpr, CondExpr;
    var x := EmitExpr(es[0], spec, n);
    if |es| == 1 {
      ExprReads(es[0], spec, n, rest);
    } else {
      var y := EmitJoin(SqlOr, es[1..], spec, n + |x.args|).sql;
      var tail := [SqlOr] + (y + rest);
      ExprReads(es[0], spec, n, tail);
      OrReads(es[1..], spec, n + |x.args|, rest);
      assert EmitJoin(SqlOr, es, spec, n).sql + rest == x.sql + tail;
      assert tail[1..] == y + rest;
    }
  }

  // ---- Evaluating that condition gives the meaning ----

  // The arguments of x are bound to placeholders n+1, n+2, ...
  predicate Bound(env: Env, n: nat, xs: seq<SqlVal>) {
    n + |xs| <= |env.args| && env.args[n..n + |xs|] == xs
  }

  // The cell a leaf looks at exists and has the type its field is declared with.
  predicate CellFits(p: Predicate, spec: MetricSpec, env: Env)
    requires LeafFits(p, spec)
  {
    var f := spec.filter[p.field];
    && f.column in env.row
    && (if f.kind.FieldString? then env.row[f.column].SStr? else env.row[f.column].SNum?)
  }

  predicate RowFits(spec: MetricSpec, env: Env) {
    forall f <- spec.filter :: spec.filter[f].column in env.row &&
      (if spec.filter[f].kind.FieldString? then env.row[spec.filter[f].column].SStr? else env.row[spec.filter[f].column].SNum?)
  }

  lemma ListEval(col: string, xs: seq<SqlVal>, n: nat, env: Env)
    requires Bound(env, n, xs) && col in env.row
    ensures EvalAtom(InList(col, Sort(Range(n + 1, |xs|), PlaceholderLeq)), env) <==> env.row[col] in xs
  {
    hide Sort, PlaceholderLeq;
    var range := Range(n + 1, |xs|);
    var ks := Sort(range, PlaceholderLeq);
    SameElements(ks, range);
    RangeEval(col, xs, n, env);
  }

  lemma RangeEval(col: string, xs: seq<SqlVal>, n: nat, env: Env)
    requires Bound(env, n, xs) && col in env.row
    ensures (exists k <- Range(n + 1, |xs|) :: Arg(env, k) == Column(env, col)) <==> env.row[col] in xs
  {
    var range := Range(n + 1, |xs|);
    forall i | 0 <= i < |xs|
      ensures Arg(env, range[i]) == Some(xs[i])
    {
      assert env.args[n..n + |xs|][i] == xs[i];
    }
    if env.row[col] in xs {
      var i :| 0 <= i < |xs| && xs[i] == env.row[col];
      assert range[i] in range;
    }
  }

  lemma PredicateEval(p: Predicate, spec: MetricSpec, n: nat, env: Env)
    requires LeafFits(p, spec) && RowFits(spec, env)
    requires Bound(env, n, EmitPredicate(p, spec, n).args)
    ensures Eval(CondPredicate(p, spec, n), env) <==> LeafHolds(p, spec, env)
  {
    hide EmitPredicate, CondPredicate, LeafHolds, Bound, RowFits, Eval;
    LeafShape(p, spec);
    if p.op.OpIn? {
      ListLeafEval(p, spec, n, env);
    } else if p.op.OpContains? || p.op.OpMatches? {
      CallLeafEval(p, spec, n, env);
    } else {
      ScalarLeafEval(p, spec, n, env);
    }
  }

  lemma ListLeafEval(p: Predicate, spec: MetricSpec, n: nat, env: Env)
    requires LeafFits(p, spec) && RowFits(spec, env) && p.op.OpIn?
    requires Bound(env, n, EmitPredicate(p, spec, n).args)
    ensures Eval(CondPredicate(p, spec, n), env) <==> LeafHolds(p, spec, env)
  {
    hide Sort, Range, ListArgs;
    var col := ColumnOf(spec, p.field);
    assert p.field in spec.filter && CellFits(p, spec, env);
    ListEval(col, EmitPredicate(p, spec, n).args, n, env);
    InListMeans(p.value, env.row[col]);
  }

  lemma CallLeafEval(p: Predicate, spec: MetricSpec, n: nat, env: Env)
    requires LeafFits(p, spec) && RowFits(spec, env) && (p.op.OpContains? || p.op.OpMatches?)
    requires Bound(env, n, EmitPredicate(p, spec, n).args)
    ensures Eval(CondPredicate(p, spec, n), env) <==> LeafHolds(p, spec, env)
  {
    hide Sort, Range, ListArgs, Position;
    var col := ColumnOf(spec, p.field);
    assert p.field in spec.filter && CellFits(p, spec, env);
    assert env.args[n..n + 1][0] == EmitPredicate(p, spec, n).args[0] == env.args[n];
    if p.op.OpContains? {
      PositionFinds(env.row[col].s, p.value.s);
    }
  }

  lemma ScalarLeafEval(p: Predicate, spec: MetricSpec, n: nat, env: Env)
    requires LeafFits(p, spec) && RowFits(spec, env) && p.op !in {OpIn, OpContains, OpMatches}
    requires Bound(env, n, EmitPredicate(p, spec, n).args)
    ensures Eval(CondPredicate(p, spec, n), env) <==> LeafHolds(p, spec, env)
  {
    hide Sort, Range, ListArgs;
    assert p.field in spec.filter && CellFits(p, spec, env);
    assert env.args[n..n + 1][0] == EmitPredicate(p, spec, n).args[0] == env.args[n];
  }

  lemma InListMeans(v: Value, x: SqlVal)
    requires v.ValStringList? || v.ValNumberList?
    ensures x in ListArgs(v) <==>
            match v
            case ValStringList(ss) => exists s <- ss :: x == SStr(s)
            case ValNumberList(ns) => exists y <- ns :: x == SNum(y)
            case _ => false
  {
    match v
    case ValStringList(ss) =>
      forall s <- ss ensures SStr(s) in ListArgs(v) {
        var i :| 0 <= i < |ss| && ss[i] == s;
        assert ListArgs(v)[i] == SStr(s);
      }
    case ValNumberList(ns) =>
      forall y <- ns ensures SNum(y) in ListArgs(v) {
        var i :| 0 <= i < |ns| && ns[i] == y;
        assert ListArgs(v)[i] == SNum(y);
      }
  }

  lemma {:induction false} ExprEval(e: Expr, spec: MetricSpec, n: nat, env: Env)
    requires Fits(e, spec) && Shaped(e) && RowFits(spec, env)
    requires Bound(env, n, EmitExpr(e, spec, n).args)
    ensures Eval(CondExpr(e, spec, n), env) <==> Holds(e, spec, env)
    decreases e, 1
  {
    hide EmitPredicate, CondPredicate, LeafHolds, LeafFits, RowFits, EvalAtom;
    match e
    case Pred(p) =>
      assert p in Leaves(e);
      PredicateEval(p, spec, n, env);
    case And(terms) => JoinEval(true, terms, spec, n, env);
    case Or(terms) => JoinEval(false, terms, spec, n, env);
    case Not(inner) => ExprEval(inner, spec, n, env);
  }

  lemma {:induction false} JoinEval(conj: bool, es: seq<Expr>, spec: MetricSpec, n: nat, env: Env)
    requires es != [] && (forall e <- es :: Shaped(e)) && (forall p <- AllLeaves(es) :: LeafFits(p, spec))
    requires RowFits(spec, env)
    requires Bound(env, n, EmitJoin(if conj then SqlAnd else SqlOr, es, spec, n).args)
    ensures Eval(CondJoin(conj, es, spec, n), env) <==>
            if conj then forall e <- es :: Holds(e, spec, env) else exists e <- es :: Holds(e, spec, env)
    decreases es, 0
  {
    hide LeafFits, RowFits, EmitExpr, CondExpr;
    var x := EmitExpr(es[0], spec, n);
    if |es| == 1 {
      ExprEval(es[0], spec, n, env);
    } else {
      var y := EmitJoin(if conj then SqlAnd else SqlOr, es[1..], spec, n + |x.args|);
      BoundSplit(env, n, x.args, y.args);
      ExprEval(es[0], spec, n, env);
      JoinEval(conj, es[1..], spec, n + |x.args|, env);
      assert es == [es[0]] + es[1..];
    }
  }

  lemma BoundSplit(env: Env, n: nat, xs: seq<SqlVal>, ys: seq<SqlVal>)
    requires Bound(env, n, xs + ys)
    ensures Bound(env, n, xs) && Bound(env, n + |xs|, ys)
  {
    var zs := env.args[n..n + |xs| + |ys|];
    assert zs == xs + ys;
    assert env.args[n..n + |xs|] == zs[..|xs|];
    assert env.args[n + |xs|..n + |xs| + |ys|] == zs[|xs|..];
  }

  // ---- The whole clause ----

  function ScopeCond(q: Query, inner: Option<Cond>): Cond {
    var tenant := CAtom(Compare("tenant_id", OpEq, 1));
    var since := CAtom(Since("observed_at", Window(q).count, UnitToCH(Window(q).unit)));
    CAnd(tenant, match inner case None => since case Some(c) => CAnd(since, c))
  }

  lemma ScopeReads(q: Query, inner: Option<Cond>, rest: seq<SqlTok>)
    requires match inner
             case None => rest == []
             case Some(c) => rest != [] && rest[0] == SqlAnd && ReadAnd(rest[1..]) == Got(c, [])
    ensures ReadOr(Scope(q) + rest) == Got(ScopeCond(q, inner), [])
  {
    hide ReadNot, ReadAtom;
    var ts := Scope(q) + rest;
    var t1 := ts[4..];
    TenantReads(q, rest);
    SinceReads(q, rest);
    assert ts[3..][1..] == t1;
    if inner.Some? {
      assert ReadAnd(t1) == Got(ScopeCond(q, inner).r, []);
    } else {
      assert ReadAnd(t1) == Got(ScopeCond(q, inner).r, []);
    }
    assert ReadAnd(ts) == Got(ScopeCond(q, inner), []);
  }

  lemma TenantReads(q: Query, rest: seq<SqlTok>)
    ensures ReadNot(Scope(q) + rest) == Got(CAtom(Compare("tenant_id", OpEq, 1)), (Scope(q) + rest)[3..])
  {
    hide ReadAtom;
    var ts := Scope(q) + rest;
    CompareReads("tenant_id", OpEq, 1, ts[3..]);
    assert ts == [SqlName("tenant_id"), SqlCmp(OpEq), SqlParam(1)] + ts[3..];
    AtomReads(ts, Compare("tenant_id", OpEq, 1), ts[3..]);
  }

  lemma SinceReads(q: Query, rest: seq<SqlTok>)
    ensures ReadNot((Scope(q) + rest)[4..]) ==
            Got(CAtom(Since("observed_at", Window(q).count, UnitToCH(Window(q).unit))), rest)
  {
    hide UnitToCH, ReadParams;
    var ts := (Scope(q) + rest)[4..];
    assert ts[7..] == rest;
    AtomReads(ts, Since("observed_at", Window(q).count, UnitToCH(Window(q).unit)), rest);
  }

  // Read back with SQL precedence and its own arguments, the WHERE clause of
  // an accepted query selects exactly the tenant's rows that lie in the
  // window and satisfy the filter.
  lemma WhereMeans(q: Query, metrics: Metrics, tenant: string, env: Env)
    requires Check(q, metrics) == None
    requires q.filter.Some? ==> Shaped(q.filter.value)
    requires q.over.Some? ==> q.over.value.unit in {'s', 'm', 'h', 'd', 'w'}
    requires RowFits(metrics[q.metric], env)
    requires env.args == EmitWhere(q, metrics[q.metric], tenant).args
    ensures var r := ReadWhere(EmitWhere(q, metrics[q.metric], tenant).sql);
            r.Some? && (Eval(r.value, env) <==> Selected(q, metrics[q.metric], tenant, env))
  {
    hide RowFits, Scope, EmitExpr, CondExpr, LeafFits, Holds, Check, Eval, ScopeCond, ReadWhere;
    CheckIff(q, metrics);
    var spec := metrics[q.metric];
    WhereReads(q, spec, tenant);
    ScopeEval(q, InnerCond(q, spec), tenant, env);
    if q.filter.Some? {
      var x := EmitExpr(q.filter.value, spec, 1);
      assert env.args[1..1 + |x.args|] == x.args;
      ExprEval(q.filter.value, spec, 1, env);
    }
  }

  // The same for any query that was read from a text.
  lemma CompiledMeans(input: string, q: Query, metrics: Metrics, tenant: string, env: Env)
    requires Parser.Parses(input, Parser.Accepted(q)) && LexerProps.AsciiWords(input) && Check(q, metrics) == None
    requires RowFits(metrics[q.metric], env)
    requires env.args == EmitWhere(q, metrics[q.metric], tenant).args
    ensures var r := ReadWhere(EmitWhere(q, metrics[q.metric], tenant).sql);
            r.Some? && (Eval(r.value, env) <==> Selected(q, metrics[q.metric], tenant, env))
  {
    hide Parser.Parses, RowFits, EmitWhere, ReadWhere, Eval, Selected;
    RoundTrip.ParsedCanBePrinted(input, q);
    if q.filter.Some? {
      WfShaped(q.filter.value);
    }
    WhereMeans(q, metrics, tenant, env);
  }

  function InnerCond(q: Query, spec: MetricSpec): Option<Cond>
    requires q.filter.Some? ==> Shaped(q.filter.value)
  {
    match q.filter
    case None => None
    case Some(e) => Some(CondExpr(e, spec, 1))
  }

  lemma WhereReads(q: Query, spec: MetricSpec, tenant: string)
    requires q.filter.Some? ==> Shaped(q.filter.value) && Fits(q.filter.value, spec)
    ensures ReadWhere(EmitWhere(q, spec, tenant).sql) == Some(ScopeCond(q, InnerCond(q, spec)))
  {
    hide ReadOr, ReadAnd, Scope, EmitExpr, CondExpr, LeafFits, ScopeCond;
    var ts := EmitWhere(q, spec, tenant).sql;
    match q.filter
    case None =>
      ScopeReads(q, None, []);
      assert ts[1..] == Scope(q) + [];
    case Some(e) =>
      var rest := [SqlAnd] + EmitExpr(e, spec, 1).sql;
      FilterReads(e, spec);
      ScopeReads(q, Some(CondExpr(e, spec, 1)), rest);
      assert ts[1..] == Scope(q) + rest;
  }

  lemma FilterReads(e: Expr, spec: MetricSpec)
    requires Fits(e, spec) && Shaped(e)
    ensures ReadAnd(([SqlAnd] + EmitExpr(e, spec, 1).sql)[1..]) == Got(CondExpr(e, spec, 1), [])
  {
    hide ReadNot, EmitExpr, CondExpr;
    var x := EmitExpr(e, spec, 1).sql;
    ExprReads(e, spec, 1, []);
    assert x + [] == x && ([SqlAnd] + x)[1..] == x;
  }

  lemma ScopeEval(q: Query, inner: Option<Cond>, tenant: string, env: Env)
    requires env.args != [] && env.args[0] == SStr(tenant)
    requires q.over.Some? ==> q.over.value.unit in {'s', 'm', 'h', 'd', 'w'}
    ensures Eval(ScopeCond(q, inner), env) <==>
            && Column(env, "tenant_id") == Some(SStr(tenant))
            && (match Column(env, "observed_at")
                case Some(SNum(t)) => t >= env.now - WindowSeconds(q.over)
                case _ => false)
            && (inner.Some? ==> Eval(inner.value, env))
  {
    var since := CAtom(Since("observed_at", Window(q).count, UnitToCH(Window(q).unit)));
    SinceEval(q, env);
    assert Eval(CAtom(Compare("tenant_id", OpEq, 1)), env) <==> Column(env, "tenant_id") == Some(SStr(tenant));
    if inner.Some? {
      assert Eval(CAnd(since, inner.value), env) <==> Eval(since, env) && Eval(inner.value, env);
    }
  }

  lemma SinceEval(q: Query, env: Env)
    requires q.over.Some? ==> q.over.value.unit in {'s', 'm', 'h', 'd', 'w'}
    ensures Eval(CAtom(Since("observed_at", Window(q).count, UnitToCH(Window(q).unit))), env) <==>
            match Column(env, "observed_at")
            case Some(SNum(t)) => t >= env.now - WindowSeconds(q.over)
            case _ => false
  {
    var d := if q.over.Some? then q.over.value else Duration(1, 'h');
    assert UnitSeconds(UnitToCH(d.unit)) == NetqlSeconds(d.unit);
    assert d.count as real * NetqlSeconds(d.unit) == WindowSeconds(q.over);
  }

  // ---- Placeholders ----

  // The placeholder numbers in the order they are written.
  function Params(ts: seq<SqlTok>): seq<nat> {
    if ts == [] then []
    else Slot(ts[0]) + Params(ts[1..])
  }

  function Slot(t: SqlTok): seq<nat> {
    if t.SqlParam? then [t.k] else []
  }

  // The literals of a leaf, in the order they are written.
  function LeafLits(p: Predicate): seq<SqlVal> {
    match p.value
    case ValString(s) => [SStr(s)]
    case ValNumber(x) => [SNum(x)]
    case ValStringList(ss) => Strings(ss)
    case ValNumberList(ns) => Numbers(ns)
  }

  function Strings(ss: seq<string>): seq<SqlVal> {
    if ss == [] then [] else [SStr(ss[0])] + Strings(ss[1..])
  }

  function Numbers(ns: seq<real>): seq<SqlVal> {
    if ns == [] then [] else [SNum(ns[0])] + Numbers(ns[1..])
  }

  lemma {:induction false} StringsAt(ss: seq<string>, i: nat)
    requires i < |ss|
    ensures |Strings(ss)| == |ss| && Strings(ss)[i] == SStr(ss[i])
  {
    if i > 0 {
      StringsAt(ss[1..], i - 1);
    } else if |ss| > 1 {
      StringsAt(ss[1..], 0);
    }
  }

  lemma {:induction false} NumbersAt(ns: seq<real>, i: nat)
    requires i < |ns|
    ensures |Numbers(ns)| == |ns| && Numbers(ns)[i] == SNum(ns[i])
  {
    if i > 0 {
      NumbersAt(ns[1..], i - 1);
    } else if |ns| > 1 {
      NumbersAt(ns[1..], 0);
    }
  }

  lemma ListArgsAre(v: Value)
    ensures v.ValStringList? ==> ListArgs(v) == Strings(v.ss)
    ensures v.ValNumberList? ==> ListArgs(v) == Numbers(v.ns)
  {
    match v
    case ValStringList(ss) =>
      if ss != [] { StringsAt(ss, 0); }
      forall i | 0 <= i < |ss| ensures ListArgs(v)[i] == Strings(ss)[i] { StringsAt(ss, i); }
    case ValNumberList(ns) =>
      if ns != [] { NumbersAt(ns, 0); }
      forall i | 0 <= i < |ns| ensures ListArgs(v)[i] == Numbers(ns)[i] { NumbersAt(ns, i); }
    case _ =>
  }

  function Lits(ps: seq<Predicate>): seq<SqlVal> {
    if ps == [] then [] else LeafLits(ps[0]) + Lits(ps[1..])
  }

  lemma {:induction false} ParamsAppend(a: seq<SqlTok>, b: seq<SqlTok>)
    ensures Params(a + b) == Params(a) + Params(b)
  {
    hide Slot;
    if a == [] {
      assert a + b == b;
    } else {
      ParamsAppend(a[1..], b);
      assert (a + b)[1..] == a[1..] + b && (a + b)[0] == a[0];
    }
  }

  lemma {:induction false} LitsAppend(a: seq<Predicate>, b: seq<Predicate>)
    ensures Lits(a + b) == Lits(a) + Lits(b)
  {
    hide LeafLits;
    if a == [] {
      assert a + b == b;
    } else {
      LitsAppend(a[1..], b);
      assert (a + b)[1..] == a[1..] + b && (a + b)[0] == a[0];
    }
  }

  lemma {:induction false} ParamListParams(ks: seq<nat>)
    ensures Params(ParamList(ks)) == ks
  {
    if |ks| == 1 {
      assert Params(ParamList(ks)) == [ks[0]] + Params([]);
    } else if |ks| > 1 {
      ParamListParams(ks[1..]);
      var ts := ParamList(ks);
      assert ts[1..][1..] == ParamList(ks[1..]);
      assert Params(ts[1..]) == Params(ts[1..][1..]);
    }
  }

  // x uses each of the placeholders n+1, ..., n+|x.args| exactly once.
  ghost predicate UsesOnce(x: Emitted, n: nat) {
    multiset(Params(x.sql)) == multiset(Range(n + 1, |x.args|))
  }

  lemma GlueUses(x: Emitted, sep: SqlTok, y: Emitted, n: nat)
    requires !sep.SqlParam? && UsesOnce(x, n) && UsesOnce(y, n + |x.args|)
    ensures UsesOnce(Glue(x, [sep], y), n)
  {
    hide Params, Range;
    ParamsAppend(x.sql, [sep] + y.sql);
    ParamsAppend([sep], y.sql);
    NoParams([sep]);
    assert [] + Params(y.sql) == Params(y.sql);
    RangeSplit(n + 1, |x.args|, |y.args|);
  }

  lemma RangeSplit(k: nat, a: nat, b: nat)
    ensures Range(k, a + b) == Range(k, a) + Range(k + a, b)
  {
  }

  lemma BracketUses(x: Emitted, open: seq<SqlTok>, n: nat)
    requires Params(open) == [] && UsesOnce(x, n)
    ensures UsesOnce(Bracketed(x, open), n)
  {
    ParamsAppend(open, x.sql + [SqlRParen]);
    ParamsAppend(x.sql, [SqlRParen]);
    assert Params([SqlRParen]) == [];
    assert [] + (Params(x.sql) + []) == Params(x.sql);
  }

  lemma PredicateUses(p: Predicate, spec: MetricSpec, n: nat)
    requires LeafFits(p, spec)
    ensures UsesOnce(EmitPredicate(p, spec, n), n)
    ensures EmitPredicate(p, spec, n).args == LeafLits(p)
  {
    hide UsesOnce;
    var col := ColumnOf(spec, p.field);
    ListArgsAre(p.value);
    match p.op
    case OpIn => ListUses(col, p.value, n);
    case OpContains => CallUses("position", col, p.value, n, true);
    case OpMatches => CallUses("match", col, p.value, n, false);
    case op => ScalarUses(col, op, p.value, n);
  }

  lemma ListUses(col: string, v: Value, n: nat)
    ensures v.ValStringList? || v.ValNumberList? ==> UsesOnce(EmitList(col, v, n), n)
  {
    if v.ValStringList? || v.ValNumberList? {
      var ks := Sort(Range(n + 1, |ListArgs(v)|), PlaceholderLeq);
      ParamsAppend([SqlName(col), SqlIn, SqlLParen], ParamList(ks) + [SqlRParen]);
      ParamsAppend(ParamList(ks), [SqlRParen]);
      ParamListParams(ks);
      NoParams([SqlName(col), SqlIn, SqlLParen]);
      NoParams([SqlRParen]);
      assert [] + (ks + []) == ks;
    }
  }

  lemma {:induction false} NoParams(ts: seq<SqlTok>)
    requires forall t <- ts :: !t.SqlParam?
    ensures Params(ts) == []
  {
    if ts != [] {
      NoParams(ts[1..]);
    }
  }

  lemma OneParam(a: seq<SqlTok>, k: nat, b: seq<SqlTok>)
    requires (forall t <- a :: !t.SqlParam?) && (forall t <- b :: !t.SqlParam?)
    ensures Params(a + ([SqlParam(k)] + b)) == [k]
  {
    ParamsAppend(a, [SqlParam(k)] + b);
    NoParams(a);
    NoParams(b);
    assert ([SqlParam(k)] + b)[1..] == b;
  }

  lemma CallUses(fn: string, col: string, v: Value, n: nat, positive: bool)
    ensures UsesOnce(EmitCall(fn, col, v, n, positive), n)
  {
    var x := EmitCall(fn, col, v, n, positive);
    var tail := [SqlRParen] + if positive then [SqlCmp(OpGt), SqlNumber(0)] else [];
    OneParam([SqlName(fn), SqlLParen, SqlName(col), SqlComma], n + 1, tail);
    assert x.sql == [SqlName(fn), SqlLParen, SqlName(col), SqlComma] + ([SqlParam(n + 1)] + tail);
    assert Range(n + 1, 1) == [n + 1];
  }

  // Taking the branch that binds is what keeps the placeholder fresh: with a
  // list on its right-hand side a comparison would reuse the one before it.
  lemma ScalarUses(col: string, op: Op, v: Value, n: nat)
    ensures UsesOnce(EmitScalar(col, op, v, n), n) <==> v.ValString? || v.ValNumber?
  {
    var k := n + |ScalarArg(v)|;
    OneParam([SqlName(col), SqlCmp(op)], k, []);
    assert [SqlName(col), SqlCmp(op)] + ([SqlParam(k)] + []) == EmitScalar(col, op, v, n).sql;
    if v.ValString? || v.ValNumber? {
      assert Range(n + 1, 1) == [n + 1];
    } else {
      assert |multiset([k])| == 1 && |multiset(Range(n + 1, 0))| == 0;
    }
  }

  lemma {:induction false} ExprUses(e: Expr, spec: MetricSpec, n: nat)
    requires Fits(e, spec)
    ensures UsesOnce(EmitExpr(e, spec, n), n) && EmitExpr(e, spec, n).args == Lits(Leaves(e))
    decreases e, 1
  {
    hide UsesOnce, LeafFits, EmitPredicate, LeafLits, Glue;
    NothingUsed(n);
    match e
    case Pred(p) =>
      assert p in Leaves(e);
      PredicateUses(p, spec, n);
      assert Lits([p]) == LeafLits(p) + Lits([]) == LeafLits(p);
    case And(terms) =>
      JoinUses(SqlAnd, terms, spec, n);
      NoParams([SqlLParen]);
      BracketUses(EmitJoin(SqlAnd, terms, spec, n), [SqlLParen], n);
    case Or(terms) =>
      JoinUses(SqlOr, terms, spec, n);
      NoParams([SqlLParen]);
      BracketUses(EmitJoin(SqlOr, terms, spec, n), [SqlLParen], n);
    case Not(inner) =>
      ExprUses(inner, spec, n);
      NoParams([SqlNot, SqlLParen]);
      BracketUses(EmitExpr(inner, spec, n), [SqlNot, SqlLParen], n);
  }

  lemma NothingUsed(n: nat)
    ensures UsesOnce(Emitted([], []), n)
  {
    assert Range(n + 1, 0) == [];
  }

  lemma {:induction false} JoinUses(sep: SqlTok, es: seq<Expr>, spec: MetricSpec, n: nat)
    requires !sep.SqlParam? && forall p <- AllLeaves(es) :: LeafFits(p, spec)
    ensures UsesOnce(EmitJoin(sep, es, spec, n), n) && EmitJoin(sep, es, spec, n).args == Lits(AllLeaves(es))
    decreases es, 0
  {
    hide UsesOnce, LeafFits, EmitExpr, Lits, Leaves, Range;
    if es == [] {
      NothingUsed(n);
      NoLits();
    } else {
      var x := EmitExpr(es[0], spec, n);
      ExprUses(es[0], spec, n);
      if |es| == 1 {
        assert AllLeaves(es[1..]) == [];
        assert AllLeaves(es) == Leaves(es[0]);
      } else {
        JoinUses(sep, es[1..], spec, n + |x.args|);
        GlueUses(x, sep, EmitJoin(sep, es[1..], spec, n + |x.args|), n);
        LitsAppend(Leaves(es[0]), AllLeaves(es[1..]));
      }
    }
  }

  lemma NoLits()
    ensures Lits([]) == []
  {
  }

  // The first argument is the tenant, the others are the literals of the
  // filter from left to right, and the placeholders $1, ..., $n of the clause
  // name each argument exactly once.
  lemma PlaceholdersMatchArgs(q: Query, metrics: Metrics, tenant: string)
    requires Check(q, metrics) == None
    ensures var x := EmitWhere(q, metrics[q.metric], tenant);
            && multiset(Params(x.sql)) == multiset(Range(1, |x.args|))
            && x.args == [SStr(tenant)] + (if q.filter.Some? then Lits(Leaves(q.filter.value)) else [])
  {
    hide EmitExpr, Scope, LeafFits, Check, Params, Range, Lits, Leaves;
    CheckIff(q, metrics);
    var spec := metrics[q.metric];
    ScopeParams(q);
    if q.filter.Some? {
      var x := EmitExpr(q.filter.value, spec, 1);
      ExprUses(q.filter.value, spec, 1);
      GlueUses(Emitted([SqlWhere] + Scope(q), [SStr(tenant)]), SqlAnd, x, 0);
    }
  }

  lemma ScopeParams(q: Query)
    ensures Params([SqlWhere] + Scope(q)) == [1] == Range(1, 1)
  {
    var s := Scope(q);
    OneParam([SqlWhere, SqlName("tenant_id"), SqlCmp(OpEq)], 1, s[3..]);
    assert [SqlWhere] + s == [SqlWhere, SqlName("tenant_id"), SqlCmp(OpEq)] + ([SqlParam(1)] + s[3..]);
  }
}
