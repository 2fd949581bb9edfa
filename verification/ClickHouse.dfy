// The WHERE clause of the ClickHouse backend (pkg/netql/translate_ch.go):
// SQL tokens with placeholders, and the arguments bound to them.

module ClickHouse {
  import opened Options
  import opened Decimal
  import opened Sorting
  import opened NetqlTypes
  import opened MetricRegistry
  import opened TypeCheck
  import opened Sql

  const DEFAULT_OVER := Duration(1, 'h')

  // ---- What is emitted when n arguments are already bound ----

  datatype Emitted = Emitted(sql: seq<SqlTok>, args: seq<SqlVal>)

  function ScalarArg(v: Value): seq<SqlVal> {
    match v
    case ValString(s) => [SStr(s)]
    case ValNumber(x) => [SNum(x)]
    case _ => []
  }

  function ListArgs(v: Value): seq<SqlVal> {
    match v
    case ValStringList(ss) => seq(|ss|, i requires 0 <= i < |ss| => SStr(ss[i]))
    case ValNumberList(ns) => seq(|ns|, i requires 0 <= i < |ns| => SNum(ns[i]))
    case _ => []
  }

  // The String field of a value; empty unless it holds a string.
  function TextArg(v: Value): SqlVal {
    SStr(if v.ValString? then v.s else "")
  }

  // k, k+1, ..., k+m-1.
  function Range(k: nat, m: nat): (ks: seq<nat>)
    ensures |ks| == m
    ensures forall i :: 0 <= i < m ==> ks[i] == k + i
  {
    seq(m, i requires 0 <= i < m => k + i)
  }

  // The order sort.Strings puts "$a" and "$b" in: by text, "$10" before "$2".
  predicate PlaceholderLeq(a: nat, b: nat) {
    TextLeq("$" + Digits(a), "$" + Digits(b))
  }

  function ParamList(ks: seq<nat>): seq<SqlTok> {
    if ks == [] then []
    else if |ks| == 1 then [SqlParam(ks[0])]
    else [SqlParam(ks[0]), SqlComma] + ParamList(ks[1..])
  }

  function EmitScalar(col: string, op: Op, v: Value, n: nat): Emitted {
    Emitted([SqlName(col), SqlCmp(op), SqlParam(n + |ScalarArg(v)|)], ScalarArg(v))
  }

  function EmitList(col: string, v: Value, n: nat): Emitted {
    if !v.ValStringList? && !v.ValNumberList? then Emitted([], [])
    else
      var args := ListArgs(v);
      Emitted([SqlName(col), SqlIn, SqlLParen] + (ParamList(Sort(Range(n + 1, |args|), PlaceholderLeq)) + [SqlRParen]), args)
  }

  function EmitCall(fn: string, col: string, v: Value, n: nat, positive: bool): Emitted {
    Emitted(
      [SqlName(fn), SqlLParen, SqlName(col), SqlComma, SqlParam(n + 1), SqlRParen] +
      (if positive then [SqlCmp(OpGt), SqlNumber(0)] else []),
      [TextArg(v)])
  }

  // A missing field has the zero FieldSpec, hence the empty column name.
  function ColumnOf(spec: MetricSpec, field: string): string {
    if field in spec.filter then spec.filter[field].column else ""
  }

  function EmitPredicate(p: Predicate, spec: MetricSpec, n: nat): Emitted {
    var col := ColumnOf(spec, p.field);
    match p.op
    case OpIn => EmitList(col, p.value, n)
    case OpContains => EmitCall("position", col, p.value, n, true)
    case OpMatches => EmitCall("match", col, p.value, n, false)
    case _ => EmitScalar(col, p.op, p.value, n)
  }

  function EmitExpr(e: Expr, spec: MetricSpec, n: nat): Emitted
    decreases e, 1
  {
    match e
    case Pred(p) => EmitPredicate(p, spec, n)
    case And(terms) =>
      if terms == [] then Emitted([], []) else Bracketed(EmitJoin(SqlAnd, terms, spec, n), [SqlLParen])
    case Or(terms) =>
      if terms == [] then Emitted([], []) else Bracketed(EmitJoin(SqlOr, terms, spec, n), [SqlLParen])
    case Not(inner) => Bracketed(EmitExpr(inner, spec, n), [SqlNot, SqlLParen])
  }

  function Bracketed(x: Emitted, open: seq<SqlTok>): Emitted {
    Emitted(open + (x.sql + [SqlRParen]), x.args)
  }

  function EmitJoin(sep: SqlTok, es: seq<Expr>, spec: MetricSpec, n: nat): Emitted
    decreases es, 0
  {
    if es == [] then Emitted([], [])
    else
      var x := EmitExpr(es[0], spec, n);
      if |es| == 1 then x
      else
        Glue(x, [sep], EmitJoin(sep, es[1..], spec, n + |x.args|))
  }

  function Glue(x: Emitted, sep: seq<SqlTok>, y: Emitted): Emitted {
    Emitted(x.sql + (sep + y.sql), x.args + y.args)
  }

  function UnitToCH(unit: char): string {
    if unit == 's' then "SECOND"
    else if unit == 'm' then "MINUTE"
    else if unit == 'h' then "HOUR"
    else if unit == 'd' then "DAY"
    else if unit == 'w' then "WEEK"
    else if 'a' <= unit <= 'z' then [(unit as int - 32) as char]
    else [unit]
  }

  function Window(q: Query): Duration {
    if q.over.Some? then q.over.value else DEFAULT_OVER
  }

  function Scope(q: Query): seq<SqlTok> {
    [SqlName("tenant_id"), SqlCmp(OpEq), SqlParam(1), SqlAnd,
     SqlName("observed_at"), SqlCmp(OpGe), SqlNow, SqlMinus, SqlInterval,
     SqlNumber(Window(q).count), SqlName(UnitToCH(Window(q).unit))]
  }

  // The WHERE clause and all arguments.
  function EmitWhere(q: Query, spec: MetricSpec, tenant: string): Emitted {
    var head := [SqlWhere] + Scope(q);
    match q.filter
    case None => Emitted(head, [SStr(tenant)])
    case Some(e) =>
      var x := EmitExpr(e, spec, 1);
      Emitted(head + ([SqlAnd] + x.sql), [SStr(tenant)] + x.args)
  }

  // ---- The translator: output and arguments grow in place ----

  class Translator {
    const spec: MetricSpec
    var sb: seq<SqlTok>
    var args: seq<SqlVal>

    constructor (spec: MetricSpec, tenant: string)
      ensures this.spec == spec && sb == [] && args == [SStr(tenant)]
    {
      this.spec := spec;
      sb, args := [], [SStr(tenant)];
    }

    // x was appended.
    twostate predicate Appended(x: Emitted)
      reads this
    {
      sb == old(sb) + x.sql && args == old(args) + x.args
    }

    method Write(ts: seq<SqlTok>)
      modifies this`sb
      ensures sb == old(sb) + ts
    {
      sb := sb + ts;
    }

    method WriteWhere(q: Query)
      requires |args| == 1 && args[0].SStr? && sb == []
      modifies this
      ensures Emitted(sb, args) == EmitWhere(q, spec, old(args)[0].s)
    {
      hide EmitExpr, UnitToCH;
      var d := DEFAULT_OVER;
      if q.over.Some? {
        d := q.over.value;
      }
      Write([SqlWhere, SqlName("tenant_id"), SqlCmp(OpEq), SqlParam(1)]);
      Write([SqlAnd, SqlName("observed_at"), SqlCmp(OpGe), SqlNow, SqlMinus, SqlInterval,
             SqlNumber(d.count), SqlName(UnitToCH(d.unit))]);
      if q.filter.Some? {
        Write([SqlAnd]);
        WriteExpr(q.filter.value);
      }
    }

    method WriteExpr(e: Expr)
      modifies this
      ensures Appended(EmitExpr(e, spec, |old(args)|))
      decreases e, 1
    {
      match e
      case Pred(p) => WritePredicate(p);
      case And(terms) =>
        if |terms| > 0 {
          WriteJoin(SqlAnd, terms);
        }
      case Or(terms) =>
        if |terms| > 0 {
          WriteJoin(SqlOr, terms);
        }
      case Not(inner) =>
        Write([SqlNot, SqlLParen]);
        WriteExpr(inner);
        Write([SqlRParen]);
    }

    method WriteJoin(sep: SqlTok, parts: seq<Expr>)
      requires parts != []
      modifies this
      ensures Appended(Bracketed(EmitJoin(sep, parts, spec, |old(args)|), [SqlLParen]))
      decreases parts, 0
    {
      hide EmitJoin, EmitExpr;
      ghost var n := |args|;
      ghost var done := Emitted([], []);
      JoinNothing(sep, spec, n);
      Write([SqlLParen]);
      for i := 0 to |parts|
        invariant done == EmitJoin(sep, parts[..i], spec, n)
        invariant Appended(Emitted([SqlLParen] + done.sql, done.args))
      {
        if i > 0 {
          Write([sep]);
        }
        JoinSnoc(sep, parts[..i], parts[i], spec, n);
        assert parts[..i + 1] == parts[..i] + [parts[i]];
        WriteExpr(parts[i]);
        done := Glue(done, if i == 0 then [] else [sep], EmitExpr(parts[i], spec, n + |done.args|));
      }
      assert parts[..|parts|] == parts;
      Write([SqlRParen]);
    }

    method WritePredicate(p: Predicate)
      modifies this
      ensures Appended(EmitPredicate(p, spec, |old(args)|))
    {
      var col := if p.field in spec.filter then spec.filter[p.field].column else "";
      match p.op
      case OpIn => BindList(col, p.value);
      case OpContains =>
        args := args + [TextArg(p.value)];
        Write([SqlName("position"), SqlLParen, SqlName(col), SqlComma, SqlParam(|args|), SqlRParen, SqlCmp(OpGt), SqlNumber(0)]);
      case OpMatches =>
        args := args + [TextArg(p.value)];
        Write([SqlName("match"), SqlLParen, SqlName(col), SqlComma, SqlParam(|args|), SqlRParen]);
      case _ => BindScalar(col, p.op, p.value);
    }

    method BindScalar(col: string, op: Op, v: Value)
      modifies this
      ensures Appended(EmitScalar(col, op, v, |old(args)|))
    {
      match v {
        case ValString(s) => args := args + [SStr(s)];
        case ValNumber(x) => args := args + [SNum(x)];
        case _ =>
      }
      Write([SqlName(col), SqlCmp(op), SqlParam(|args|)]);
    }

    method BindList(col: string, v: Value)
      modifies this
      ensures Appended(EmitList(col, v, |old(args)|))
    {
      if !v.ValStringList? && !v.ValNumberList? {
        return;
      }
      ghost var n := |args|;
      var count := if v.ValStringList? then |v.ss| else |v.ns|;
      var placeholders: seq<nat> := [];
      for i := 0 to count
        invariant sb == old(sb) && args == old(args) + ListArgs(v)[..i]
        invariant placeholders == Range(n + 1, i)
      {
        args := args + [if v.ValStringList? then SStr(v.ss[i]) else SNum(v.ns[i])];
        placeholders := placeholders + [|args|];
      }
      assert ListArgs(v)[..count] == ListArgs(v);
      placeholders := Sort(placeholders, PlaceholderLeq);
      Write([SqlName(col), SqlIn, SqlLParen] + (ParamList(placeholders) + [SqlRParen]));
    }
  }

  lemma JoinNothing(sep: SqlTok, spec: MetricSpec, n: nat)
    ensures EmitJoin(sep, [], spec, n) == Emitted([], [])
  {
  }

  lemma GlueAssoc(x: Emitted, s: seq<SqlTok>, y: Emitted, t: seq<SqlTok>, z: Emitted)
    ensures Glue(x, s, Glue(y, t, z)) == Glue(Glue(x, s, y), t, z)
  {
    assert x.sql + (s + (y.sql + (t + z.sql))) == x.sql + (s + y.sql) + (t + z.sql);
  }

  // Adding one more part at the end of a join.
  lemma {:induction false} JoinSnoc(sep: SqlTok, es: seq<Expr>, e: Expr, spec: MetricSpec, n: nat)
    ensures var x := EmitJoin(sep, es, spec, n);
            EmitJoin(sep, es + [e], spec, n) ==
            Glue(x, if es == [] then [] else [sep], EmitExpr(e, spec, n + |x.args|))
    decreases |es|
  {
    hide EmitExpr, Glue;
    if es == [] {
      assert [] + [e] == [e];
      GlueNothing(EmitExpr(e, spec, n));
    } else {
      var x := EmitExpr(es[0], spec, n);
      var m := n + |x.args|;
      JoinSnoc(sep, es[1..], e, spec, m);
      assert (es + [e])[1..] == es[1..] + [e];
      var y := EmitJoin(sep, es[1..], spec, m);
      var z := EmitExpr(e, spec, m + |y.args|);
      if |es| == 1 {
        GlueNothing(z);
      } else {
        GlueAssoc(x, [sep], y, [sep], z);
        GlueArgs(x, [sep], y);
      }
    }
  }

  lemma GlueNothing(x: Emitted)
    ensures Glue(Emitted([], []), [], x) == x
  {
    assert [] + x.sql == x.sql && [] + ([] + x.sql) == x.sql && [] + x.args == x.args;
  }

  lemma GlueArgs(x: Emitted, sep: seq<SqlTok>, y: Emitted)
    ensures |Glue(x, sep, y).args| == |x.args| + |y.args|
  {
  }

  datatype TranslateError = Rejected(e: TypeError) | WrongBackend

  datatype Translation = Translated(where: seq<SqlTok>, args: seq<SqlVal>) | Refused(e: TranslateError)

  // The WHERE part of TranslateClickHouse.
  method TranslateClickHouse(q: Query, metrics: Metrics, tenant: string) returns (r: Translation)
    ensures match Check(q, metrics)
            case Some(e) => r == Refused(Rejected(e))
            case None =>
              var spec := metrics[q.metric];
              if spec.backend != Backend.ClickHouse then r == Refused(WrongBackend)
              else r == Translated(EmitWhere(q, spec, tenant).sql, EmitWhere(q, spec, tenant).args)
  {
    var err := Check(q, metrics);
    if err.Some? {
      return Refused(Rejected(err.value));
    }
    var spec := metrics[q.metric];
    if spec.backend != Backend.ClickHouse {
      return Refused(WrongBackend);
    }
    var t := new Translator(spec, tenant);
    t.WriteWhere(q);
    return Translated(t.sb, t.args);
  }
}
