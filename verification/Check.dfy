// The metric registry (pkg/netql/registry.go) and the type checker
// (pkg/netql/check.go).

module MetricRegistry {
  import opened Options

  datatype Backend = ClickHouse | Prometheus

  datatype FieldKind = FieldString | FieldNumber | FieldDuration

  datatype FieldSpec = FieldSpec(kind: FieldKind, column: string)

  datatype MetricSpec = MetricSpec(
    name: string,
    backend: Backend,
    groupBy: map<string, string>,
    filter: map<string, FieldSpec>)

  // Every entry is filed under its own name.
  predicate Named(metrics: map<string, MetricSpec>) {
    forall n <- metrics :: metrics[n].name == n
  }

  // The tables a registry can hold.
  type Metrics = m: map<string, MetricSpec> | Named(m)

  class Registry {
    var metrics: Metrics

    constructor ()
      ensures metrics == map[]
    {
      metrics := map[];
    }

    // Last write wins.
    method Register(m: MetricSpec)
      modifies this
      ensures metrics == old(metrics)[m.name := m]
    {
      metrics := metrics[m.name := m];
    }

    method Get(name: string) returns (m: Option<MetricSpec>)
      ensures m.Some? <==> name in metrics
      ensures m.Some? ==> m.value == metrics[name]
      ensures m.Some? ==> m.value.name == name
    {
      m := if name in metrics then Some(metrics[name]) else None;
    }
  }
}

module TypeCheck {
  import opened Options
  import opened NetqlTypes
  import opened MetricRegistry

  datatype TypeError =
    | UnknownMetric(metric: string)
    | NotGroupable(field: string)
    | NotFilterable(field: string)
    | BadOperator(p: Predicate)
    | BadOrder(field: string)
    | BadLimit(limit: int)

  // The first type error of the query, if any.
  function Check(q: Query, metrics: Metrics): Option<TypeError> {
    if q.metric !in metrics then Some(UnknownMetric(q.metric))
    else
      var spec := metrics[q.metric];
      var e1 := CheckGroupBy(q.groupBy, spec);
      if e1.Some? then e1
      else
        var e2 := if q.filter.Some? then CheckExpr(q.filter.value, spec) else None;
        if e2.Some? then e2
        else if q.orderBy.Some? && q.orderBy.value.field != q.metric && q.orderBy.value.field !in q.groupBy then
          Some(BadOrder(q.orderBy.value.field))
        else if q.limit.Some? && q.limit.value <= 0 then Some(BadLimit(q.limit.value))
        else None
  }

  function CheckGroupBy(fields: seq<string>, spec: MetricSpec): Option<TypeError> {
    if fields == [] then None
    else if fields[0] !in spec.groupBy then Some(NotGroupable(fields[0]))
    else CheckGroupBy(fields[1..], spec)
  }

  function CheckExpr(e: Expr, spec: MetricSpec): Option<TypeError> {
    match e
    case Pred(p) => CheckPredicate(p, spec)
    case And(terms) => CheckTerms(terms, spec)
    case Or(terms) => CheckTerms(terms, spec)
    case Not(inner) => CheckExpr(inner, spec)
  }

  function CheckTerms(es: seq<Expr>, spec: MetricSpec): Option<TypeError> {
    if es == [] then None
    else
      var err := CheckExpr(es[0], spec);
      if err.Some? then err else CheckTerms(es[1..], spec)
  }

  function CheckPredicate(p: Predicate, spec: MetricSpec): Option<TypeError> {
    if p.field !in spec.filter then Some(NotFilterable(p.field))
    else if !OpCompatible(p.op, spec.filter[p.field].kind, p.value) then Some(BadOperator(p))
    else None
  }

  // The operator / field / value matrix.
  predicate OpCompatible(op: Op, kind: FieldKind, v: Value) {
    match kind
    case FieldString =>
      (match op
       case OpEq => v.ValString?
       case OpNe => v.ValString?
       case OpIn => v.ValStringList?
       case OpContains => v.ValString?
       case OpMatches => v.ValString?
       case _ => false)
    case _ =>
      (match op
       case OpIn => v.ValNumberList?
       case OpContains => false
       case OpMatches => false
       case _ => v.ValNumber?)
  }

  // The verdict depends on the entry of the query's metric alone, so that
  // registering another metric does not change it.
  lemma OneEntryDecides(q: Query, metrics: Metrics, m: MetricSpec)
    ensures q.metric != m.name ==> Check(q, metrics[m.name := m]) == Check(q, metrics)
    ensures q.metric == m.name ==> Check(q, metrics[m.name := m]) == Check(q, map[m.name := m])
  {
  }

  // ---- What acceptance means ----

  // The predicates at the leaves, from left to right.
  function Leaves(e: Expr): seq<Predicate> {
    match e
    case Pred(p) => [p]
    case And(terms) => AllLeaves(terms)
    case Or(terms) => AllLeaves(terms)
    case Not(inner) => Leaves(inner)
  }

  function AllLeaves(es: seq<Expr>): seq<Predicate> {
    if es == [] then [] else Leaves(es[0]) + AllLeaves(es[1..])
  }

  // A listed field with an operator and a literal that go together: string
  // fields are compared for equality, searched and matched with a string, or
  // looked up in a list of strings; the others are compared with a number or
  // looked up in a list of numbers.
  predicate LeafFits(p: Predicate, spec: MetricSpec) {
    && p.field in spec.filter
    && if spec.filter[p.field].kind == FieldString then
         || (p.value.ValString? && p.op in {OpEq, OpNe, OpContains, OpMatches})
         || (p.value.ValStringList? && p.op == OpIn)
       else
         || (p.value.ValNumber? && p.op in {OpEq, OpNe, OpLt, OpLe, OpGt, OpGe})
         || (p.value.ValNumberList? && p.op == OpIn)
  }

  lemma LeafIff(p: Predicate, spec: MetricSpec)
    ensures CheckPredicate(p, spec) == None <==> LeafFits(p, spec)
  {
    match p.op
    case OpIn =>
    case OpContains =>
    case OpMatches =>
    case _ =>
  }

  predicate Fits(e: Expr, spec: MetricSpec) {
    forall p <- Leaves(e) :: LeafFits(p, spec)
  }

  lemma {:induction false} CheckExprIff(e: Expr, spec: MetricSpec)
    ensures CheckExpr(e, spec) == None <==> Fits(e, spec)
    decreases e
  {
    hide CheckPredicate, LeafFits;
    match e
    case Pred(p) =>
      LeafIff(p, spec);
      assert p in Leaves(e);
    case And(terms) => CheckTermsIff(terms, spec);
    case Or(terms) => CheckTermsIff(terms, spec);
    case Not(inner) => CheckExprIff(inner, spec);
  }

  lemma {:induction false} CheckTermsIff(es: seq<Expr>, spec: MetricSpec)
    ensures CheckTerms(es, spec) == None <==> forall p <- AllLeaves(es) :: LeafFits(p, spec)
    decreases es
  {
    hide LeafFits;
    if es != [] {
      CheckExprIff(es[0], spec);
      CheckTermsIff(es[1..], spec);
      assert forall p <- Leaves(es[0]) :: p in AllLeaves(es);
      assert forall p <- AllLeaves(es[1..]) :: p in AllLeaves(es);
    }
  }

  lemma {:induction false} CheckGroupByIff(fields: seq<string>, spec: MetricSpec)
    ensures CheckGroupBy(fields, spec) == None <==> forall f <- fields :: f in spec.groupBy
  {
    if fields != [] {
      CheckGroupByIff(fields[1..], spec);
      assert fields == [fields[0]] + fields[1..];
    }
  }

  // The checker accepts a query exactly if its metric is registered, every
  // grouping field is on the metric's list, every leaf of the filter compares
  // a listed field with a value its operator and kind allow, the ordering
  // field is in the output, and the limit is positive.
  lemma CheckIff(q: Query, metrics: Metrics)
    ensures Check(q, metrics) == None <==>
            && q.metric in metrics
            && (forall f <- q.groupBy :: f in metrics[q.metric].groupBy)
            && (q.filter.Some? ==> Fits(q.filter.value, metrics[q.metric]))
            && (q.orderBy.Some? ==> q.orderBy.value.field == q.metric || q.orderBy.value.field in q.groupBy)
            && (q.limit.Some? ==> q.limit.value > 0)
  {
    if q.metric in metrics {
      CheckGroupByIff(q.groupBy, metrics[q.metric]);
      if q.filter.Some? {
        CheckExprIff(q.filter.value, metrics[q.metric]);
      }
    }
  }

  // ---- What an error says ----

  predicate GroupsListed(q: Query, spec: MetricSpec) {
    forall f <- q.groupBy :: f in spec.groupBy
  }

  predicate FilterFits(q: Query, spec: MetricSpec) {
    q.filter.Some? ==> Fits(q.filter.value, spec)
  }

  // p is the first leaf of e, from left to right, that does not fit.
  ghost predicate FirstMisfit(p: Predicate, ps: seq<Predicate>, spec: MetricSpec) {
    exists i :: 0 <= i < |ps| && ps[i] == p && !LeafFits(p, spec) && forall j :: 0 <= j < i ==> LeafFits(ps[j], spec)
  }

  // The error names the first thing that is wrong with the query: metric,
  // grouping fields, filter, ordering, limit, and among fields and leaves the
  // first from left to right.
  ghost predicate Culprit(err: TypeError, q: Query, metrics: Metrics) {
    match err
    case UnknownMetric(m) => m == q.metric && m !in metrics
    case NotGroupable(f) =>
      && q.metric in metrics
      && exists i :: 0 <= i < |q.groupBy| && q.groupBy[i] == f && f !in metrics[q.metric].groupBy
                     && forall j :: 0 <= j < i ==> q.groupBy[j] in metrics[q.metric].groupBy
    case NotFilterable(f) =>
      && q.metric in metrics && q.filter.Some? && GroupsListed(q, metrics[q.metric]) && f !in metrics[q.metric].filter
      && exists p: Predicate :: p.field == f && FirstMisfit(p, Leaves(q.filter.value), metrics[q.metric])
    case BadOperator(p) =>
      && q.metric in metrics && q.filter.Some? && GroupsListed(q, metrics[q.metric])
      && p.field in metrics[q.metric].filter && FirstMisfit(p, Leaves(q.filter.value), metrics[q.metric])
    case BadOrder(f) =>
      && q.metric in metrics && GroupsListed(q, metrics[q.metric]) && FilterFits(q, metrics[q.metric])
      && q.orderBy.Some? && f == q.orderBy.value.field && f != q.metric && f !in q.groupBy
    case BadLimit(n) =>
      && q.metric in metrics && GroupsListed(q, metrics[q.metric]) && FilterFits(q, metrics[q.metric])
      && (q.orderBy.Some? ==> q.orderBy.value.field == q.metric || q.orderBy.value.field in q.groupBy)
      && q.limit == Some(n) && n <= 0
  }

  lemma {:induction false} ExprCulprit(e: Expr, spec: MetricSpec) returns (p: Predicate)
    requires CheckExpr(e, spec).Some?
    ensures FirstMisfit(p, Leaves(e), spec) && CheckPredicate(p, spec) == CheckExpr(e, spec)
    decreases e
  {
    hide CheckPredicate, LeafFits;
    match e
    case Pred(q) =>
      p := q;
      LeafIff(p, spec);
      assert Leaves(e)[0] == p;
    case And(terms) => p := TermsCulprit(terms, spec);
    case Or(terms) => p := TermsCulprit(terms, spec);
    case Not(inner) => p := ExprCulprit(inner, spec);
  }

  lemma {:induction false} TermsCulprit(es: seq<Expr>, spec: MetricSpec) returns (p: Predicate)
    requires CheckTerms(es, spec).Some?
    ensures FirstMisfit(p, AllLeaves(es), spec) && CheckPredicate(p, spec) == CheckTerms(es, spec)
    decreases es
  {
    hide CheckPredicate, LeafFits, FirstMisfit;
    if CheckExpr(es[0], spec).Some? {
      p := ExprCulprit(es[0], spec);
      MisfitInFront(p, Leaves(es[0]), AllLeaves(es[1..]), spec);
    } else {
      CheckExprIff(es[0], spec);
      p := TermsCulprit(es[1..], spec);
      MisfitBehind(p, Leaves(es[0]), AllLeaves(es[1..]), spec);
    }
  }

  lemma MisfitInFront(p: Predicate, a: seq<Predicate>, b: seq<Predicate>, spec: MetricSpec)
    requires FirstMisfit(p, a, spec)
    ensures FirstMisfit(p, a + b, spec)
  {
    hide LeafFits;
    var i :| 0 <= i < |a| && a[i] == p && forall j :: 0 <= j < i ==> LeafFits(a[j], spec);
    assert (a + b)[i] == p;
  }

  lemma MisfitBehind(p: Predicate, a: seq<Predicate>, b: seq<Predicate>, spec: MetricSpec)
    requires FirstMisfit(p, b, spec) && forall q <- a :: LeafFits(q, spec)
    ensures FirstMisfit(p, a + b, spec)
  {
    hide LeafFits;
    var i :| 0 <= i < |b| && b[i] == p && forall j :: 0 <= j < i ==> LeafFits(b[j], spec);
    assert (a + b)[|a| + i] == p;
    forall j | 0 <= j < |a| + i ensures LeafFits((a + b)[j], spec) {
      if j < |a| {
        assert a[j] in a;
      } else {
        assert (a + b)[j] == b[j - |a|];
      }
    }
  }

  lemma {:induction false} GroupCulprit(fields: seq<string>, spec: MetricSpec) returns (i: nat)
    requires CheckGroupBy(fields, spec).Some?
    ensures i < |fields| && fields[i] !in spec.groupBy && CheckGroupBy(fields, spec) == Some(NotGroupable(fields[i]))
    ensures forall j :: 0 <= j < i ==> fields[j] in spec.groupBy
  {
    i := 0;
    if fields[0] in spec.groupBy {
      i := GroupCulprit(fields[1..], spec);
      i := i + 1;
    }
  }

  // Every error the checker reports names its culprit.
  lemma ErrorNamesCulprit(q: Query, metrics: Metrics)
    requires Check(q, metrics).Some?
    ensures Culprit(Check(q, metrics).value, q, metrics)
  {
    hide CheckGroupBy, CheckExpr, LeafFits, FirstMisfit;
    if q.metric in metrics {
      var spec := metrics[q.metric];
      CheckGroupByIff(q.groupBy, spec);
      if CheckGroupBy(q.groupBy, spec).Some? {
        var i := GroupCulprit(q.groupBy, spec);
        assert q.groupBy[i] !in spec.groupBy;
      } else if q.filter.Some? {
        CheckExprIff(q.filter.value, spec);
        if CheckExpr(q.filter.value, spec).Some? {
          var p := ExprCulprit(q.filter.value, spec);
        }
      }
    }
  }
}
