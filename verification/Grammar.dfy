// The netql grammar as data. A value of type QueryC is one derivation in the
// grammar printed above the productions of pkg/netql/parser.go; its yield is
// the token sequence it derives, and TreeOf is the syntax tree it stands for.
// The parser accepts exactly the yields, and builds exactly those trees.

module Grammar {
  import opened Options
  import opened NetqlTypes
  import opened Numbers
  import opened ParserSpec

  // expr = and_expr { "or" and_expr }
  datatype ExprC = LastOr(a: AndC) | MoreOr(a: AndC, more: ExprC)

  // and_expr = unary { "and" unary }
  datatype AndC = LastAnd(u: UnaryC) | MoreAnd(u: UnaryC, more: AndC)

  // unary = [ "not" ] term
  datatype UnaryC = Plain(t: TermC) | Negated(t: TermC)

  // term = identifier op value | "(" expr ")"
  datatype TermC = PredC(field: Tok, op: Tok, value: ValueC) | GroupC(e: ExprC)

  datatype ValueC = ScalarC(t: Tok) | ListC(items: seq<Tok>)

  datatype OrderC = OrderC(field: Tok, direction: Option<Direction>)

  // query = metric [ groupby ] [ filter ] [ over ] [ step ] [ orderby ] [ limit ]
  datatype QueryC = QueryC(
    metric: Tok,
    groupBy: seq<Tok>,
    filter: Option<ExprC>,
    over: Option<Tok>,
    step: Option<Tok>,
    orderBy: Option<OrderC>,
    limit: Option<Tok>)

  const COMMA := Tok(TokComma, ",")
  const LPAREN := Tok(TokLParen, "(")
  const RPAREN := Tok(TokRParen, ")")

  // ---- Which leaves a derivation may have ----

  predicate AllItems<T>(ts: seq<Tok>, item: Tok -> Option<T>) {
    forall t <- ts :: item(t).Some?
  }

  predicate ValidExpr(c: ExprC) {
    ValidAnd(c.a) && (c.MoreOr? ==> ValidExpr(c.more))
  }

  predicate ValidAnd(c: AndC) {
    ValidTerm(c.u.t) && (c.MoreAnd? ==> ValidAnd(c.more))
  }

  predicate ValidTerm(c: TermC) {
    match c
    case GroupC(e) => ValidExpr(e)
    case PredC(field, op, value) => IdentItem(field).Some? && OpOf(op).Some? && ValidValue(value, OpOf(op).value)
  }

  predicate ValidValue(v: ValueC, op: Op) {
    match v
    case ScalarC(t) => op != OpIn && ScalarItem(t).Some?
    case ListC(items) => op == OpIn && items != [] && (AllItems(items, StringItem) || AllItems(items, NumberItem))
  }

  predicate ValidQuery(c: QueryC) {
    && IdentItem(c.metric).Some?
    && AllItems(c.groupBy, IdentItem)
    && (c.filter.Some? ==> ValidExpr(c.filter.value))
    && (c.over.Some? ==> DurationItem(c.over.value).Some?)
    && (c.step.Some? ==> DurationItem(c.step.value).Some?)
    && (c.orderBy.Some? ==> IdentItem(c.orderBy.value.field).Some?)
    && (c.limit.Some? ==> LimitItem(c.limit.value).Some?)
  }

  // ---- The tokens a derivation yields ----

  function YieldList(items: seq<Tok>): seq<Tok> {
    if |items| <= 1 then items else [items[0], COMMA] + YieldList(items[1..])
  }

  function YieldExpr(c: ExprC): seq<Tok> {
    match c
    case LastOr(a) => YieldAnd(a)
    case MoreOr(a, more) => YieldAnd(a) + ([Kw("or")] + YieldExpr(more))
  }

  function YieldAnd(c: AndC): seq<Tok> {
    match c
    case LastAnd(u) => YieldUnary(u)
    case MoreAnd(u, more) => YieldUnary(u) + ([Kw("and")] + YieldAnd(more))
  }

  function YieldUnary(c: UnaryC): seq<Tok> {
    match c
    case Plain(t) => YieldTerm(t)
    case Negated(t) => [Kw("not")] + YieldTerm(t)
  }

  function YieldTerm(c: TermC): seq<Tok> {
    match c
    case PredC(field, op, value) => [field, op] + YieldValue(value)
    case GroupC(e) => [LPAREN] + (YieldExpr(e) + [RPAREN])
  }

  function YieldValue(v: ValueC): seq<Tok> {
    match v
    case ScalarC(t) => [t]
    case ListC(items) => [LPAREN] + (YieldList(items) + [RPAREN])
  }

  function YieldBy(items: seq<Tok>): seq<Tok> {
    if items == [] then [] else [Kw("by")] + YieldList(items)
  }

  function YieldFilter(f: Option<ExprC>): seq<Tok> {
    match f
    case None => []
    case Some(e) => [Kw("where")] + YieldExpr(e)
  }

  function YieldWord(w: string, t: Option<Tok>): seq<Tok> {
    match t
    case None => []
    case Some(t) => [Kw(w), t]
  }

  function DirectionWord(d: Direction): string {
    match d
    case DirAsc => "asc"
    case DirDesc => "desc"
  }

  function YieldOrder(o: Option<OrderC>): seq<Tok> {
    match o
    case None => []
    case Some(OrderC(field, None)) => [Kw("order"), Kw("by"), field]
    case Some(OrderC(field, Some(d))) => [Kw("order"), Kw("by"), field, Kw(DirectionWord(d))]
  }

  function YieldTrailer(c: QueryC): seq<Tok> {
    YieldWord("over", c.over) + (YieldWord("step", c.step) + (YieldOrder(c.orderBy) + YieldWord("limit", c.limit)))
  }

  function Yield(c: QueryC): seq<Tok> {
    [c.metric] + (YieldBy(c.groupBy) + (YieldFilter(c.filter) + YieldTrailer(c)))
  }

  // ---- The tree a derivation stands for ----

  function Items<T>(ts: seq<Tok>, item: Tok -> Option<T>): seq<T>
    requires AllItems(ts, item)
  {
    if ts == [] then [] else [item(ts[0]).value] + Items(ts[1..], item)
  }

  function Alternatives(c: ExprC): (es: seq<Expr>)
    requires ValidExpr(c)
    ensures |es| > 0
    decreases c, 0
  {
    match c
    case LastOr(a) => [AndNode(Conjuncts(a))]
    case MoreOr(a, more) => [AndNode(Conjuncts(a))] + Alternatives(more)
  }

  function Conjuncts(c: AndC): (es: seq<Expr>)
    requires ValidAnd(c)
    ensures |es| > 0
    decreases c, 0
  {
    match c
    case LastAnd(u) => [UnaryOf(u)]
    case MoreAnd(u, more) => [UnaryOf(u)] + Conjuncts(more)
  }

  function UnaryOf(c: UnaryC): Expr
    requires ValidTerm(c.t)
    decreases c, 0
  {
    match c
    case Plain(t) => TermOf(t)
    case Negated(t) => Not(TermOf(t))
  }

  function TermOf(c: TermC): Expr
    requires ValidTerm(c)
    decreases c, 0
  {
    match c
    case GroupC(e) => ExprOf(e)
    case PredC(field, op, value) => Pred(Predicate(field.value, OpOf(op).value, ValueOf(value, OpOf(op).value)))
  }

  function ExprOf(c: ExprC): Expr
    requires ValidExpr(c)
    decreases c, 1
  {
    OrNode(Alternatives(c))
  }

  function ValueOf(v: ValueC, op: Op): Value
    requires ValidValue(v, op)
  {
    match v
    case ScalarC(t) => ScalarItem(t).value
    case ListC(items) =>
      if AllItems(items, StringItem) then ValStringList(Items(items, StringItem))
      else ValNumberList(Items(items, NumberItem))
  }

  function OrderOf(o: OrderC): OrderBy {
    OrderBy(o.field.value, if o.direction.Some? then o.direction.value else DirAsc)
  }

  function Convert<T>(t: Option<Tok>, item: Tok -> Option<T>): Option<T> {
    match t
    case None => None
    case Some(t) => item(t)
  }

  function TreeOf(c: QueryC): Query
    requires ValidQuery(c)
  {
    Query(
      c.metric.value,
      Items(c.groupBy, IdentItem),
      if c.filter.Some? then Some(ExprOf(c.filter.value)) else None,
      Convert(c.over, DurationItem),
      Convert(c.step, DurationItem),
      if c.orderBy.Some? then Some(OrderOf(c.orderBy.value)) else None,
      Convert(c.limit, LimitItem))
  }

  // ---- Every derivation is parsed, to its tree ----

  lemma {:induction false} ListParses<T>(items: seq<Tok>, item: Tok -> Option<T>, rest: seq<Tok>)
    requires items != [] && AllItems(items, item) && Peek(rest).kind != TokComma
    ensures PList(YieldList(items) + rest, item) == Parsed(Items(items, item), rest)
  {
    var ts := YieldList(items) + rest;
    assert Items(items, item) == [item(items[0]).value] + Items(items[1..], item);
    if |items| == 1 {
      assert ts[1..] == rest && items[1..] == [];
      assert Items(items, item) == [item(items[0]).value];
    } else {
      ListParses(items[1..], item, rest);
      assert ts[1..][1..] == YieldList(items[1..]) + rest;
    }
  }

  predicate NoMore(rest: seq<Tok>) {
    !NextIs(rest, "or") && !NextIs(rest, "and")
  }

  lemma {:induction false} ExprParses(c: ExprC, rest: seq<Tok>)
    requires ValidExpr(c) && NoMore(rest)
    ensures POrs(YieldExpr(c) + rest) == Parsed(Alternatives(c), rest)
    decreases c
  {
    match c
    case LastOr(a) => AndParses(a, rest);
    case MoreOr(a, more) =>
      var tail := [Kw("or")] + YieldExpr(more) + rest;
      assert YieldExpr(c) + rest == YieldAnd(a) + tail;
      AndParses(a, tail);
      ExprParses(more, rest);
      assert tail[1..] == YieldExpr(more) + rest;
  }

  lemma {:induction false} AndParses(c: AndC, rest: seq<Tok>)
    requires ValidAnd(c) && !NextIs(rest, "and")
    ensures PAnds(YieldAnd(c) + rest) == Parsed(Conjuncts(c), rest)
    decreases c
  {
    match c
    case LastAnd(u) => UnaryParses(u, rest);
    case MoreAnd(u, more) =>
      var tail := [Kw("and")] + YieldAnd(more) + rest;
      assert YieldAnd(c) + rest == YieldUnary(u) + tail;
      UnaryParses(u, tail);
      AndParses(more, rest);
      assert tail[1..] == YieldAnd(more) + rest;
  }

  lemma {:induction false} UnaryParses(c: UnaryC, rest: seq<Tok>)
    requires ValidTerm(c.t)
    ensures PUnary(YieldUnary(c) + rest) == Parsed(UnaryOf(c), rest)
    decreases c
  {
    TermParses(c.t, rest);
    if c.Negated? {
      assert (YieldUnary(c) + rest)[1..] == YieldTerm(c.t) + rest;
    }
  }

  lemma {:induction false} TermParses(c: TermC, rest: seq<Tok>)
    requires ValidTerm(c)
    ensures PTerm(YieldTerm(c) + rest) == Parsed(TermOf(c), rest)
    ensures !NextIs(YieldTerm(c) + rest, "not")
    decreases c
  {
    var ts := YieldTerm(c) + rest;
    match c
    case GroupC(e) =>
      ExprParses(e, [RPAREN] + rest);
      assert ts[1..] == YieldExpr(e) + ([RPAREN] + rest);
      assert ([RPAREN] + rest)[1..] == rest;
    case PredC(field, op, value) =>
      PredicateParses(c, rest);
  }

  lemma PredicateParses(c: TermC, rest: seq<Tok>)
    requires ValidTerm(c) && c.PredC?
    ensures PTerm(YieldTerm(c) + rest) == Parsed(TermOf(c), rest)
    ensures !NextIs(YieldTerm(c) + rest, "not")
  {
    hide PValue, ValidValue, YieldValue, ValueOf;
    var ts := YieldTerm(c) + rest;
    assert ts[1..][1..] == YieldValue(c.value) + rest;
    ValueParses(c.value, OpOf(c.op).value, rest);
  }

  lemma FirstOfList(items: seq<Tok>, rest: seq<Tok>)
    requires items != []
    ensures Peek(YieldList(items) + rest) == items[0] && items[0] in items
  {
  }

  lemma ListValueParses(items: seq<Tok>, rest: seq<Tok>)
    requires ValidValue(ListC(items), OpIn)
    ensures PValueList(YieldValue(ListC(items)) + rest) == Parsed(ValueOf(ListC(items), OpIn), rest)
  {
    hide PList, YieldList, Items, ParseFloat;
    var ts, tail := YieldValue(ListC(items)) + rest, [RPAREN] + rest;
    assert ts[1..] == YieldList(items) + tail && tail[1..] == rest;
    FirstOfList(items, tail);
    if AllItems(items, StringItem) {
      ListParses(items, StringItem, tail);
    } else {
      ListParses(items, NumberItem, tail);
    }
  }

  lemma ValueParses(v: ValueC, op: Op, rest: seq<Tok>)
    requires ValidValue(v, op)
    ensures PValue(YieldValue(v) + rest, op) == Parsed(ValueOf(v, op), rest)
  {
    hide PValueList;
    match v
    case ScalarC(t) => assert (YieldValue(v) + rest)[1..] == rest;
    case ListC(items) => ListValueParses(items, rest);
  }

  // rest is empty or starts with one of these keywords.
  predicate Follows(rest: seq<Tok>, ws: set<string>) {
    rest == [] || (rest[0].kind == TokKeyword && rest[0].value in ws)
  }

  lemma WindowParses(w: string, t: Option<Tok>, rest: seq<Tok>)
    requires t.Some? ==> DurationItem(t.value).Some?
    requires !NextIs(rest, w)
    ensures PWindow(YieldWord(w, t) + rest, w) == Parsed(Convert(t, DurationItem), rest)
  {
    var ts := YieldWord(w, t) + rest;
    if t.Some? {
      assert ts[1..][1..] == rest;
    } else {
      assert ts == rest;
    }
  }

  lemma OrderParses(o: Option<OrderC>, rest: seq<Tok>)
    requires o.Some? ==> IdentItem(o.value.field).Some?
    requires Follows(rest, {"limit"})
    ensures POrderBy(YieldOrder(o) + rest) == Parsed(if o.Some? then Some(OrderOf(o.value)) else None, rest)
  {
    var ts := YieldOrder(o) + rest;
    match o
    case None => assert ts == rest;
    case Some(OrderC(field, direction)) =>
      var tail := (if direction.Some? then [Kw(DirectionWord(direction.value))] else []) + rest;
      DirectionParses(direction, rest);
      assert ts == [Kw("order"), Kw("by"), field] + tail;
      OrderBehind(field, tail);
  }

  lemma DirectionParses(d: Option<Direction>, rest: seq<Tok>)
    requires Follows(rest, {"limit"})
    ensures PDirection((if d.Some? then [Kw(DirectionWord(d.value))] else []) + rest)
         == Parsed(if d.Some? then d.value else DirAsc, rest)
  {
    match d
    case None => assert [] + rest == rest;
    case Some(d) => assert ([Kw(DirectionWord(d))] + rest)[1..] == rest;
  }

  lemma OrderBehind(field: Tok, tail: seq<Tok>)
    requires IdentItem(field).Some? && PDirection(tail).Parsed?
    ensures POrderBy([Kw("order"), Kw("by"), field] + tail)
         == Parsed(Some(OrderBy(field.value, PDirection(tail).val)), PDirection(tail).rest)
  {
    hide PDirection;
    var ts := [Kw("order"), Kw("by"), field] + tail;
    assert ts[1..] == [Kw("by"), field] + tail;
    assert ([Kw("by"), field] + tail)[1..] == [field] + tail;
    assert ([field] + tail)[1..] == tail;
  }

  lemma LimitParses(t: Option<Tok>)
    requires t.Some? ==> LimitItem(t.value).Some?
    ensures PLimit(YieldWord("limit", t)) == Parsed(Convert(t, LimitItem), [])
  {
  }

  lemma TrailerParses(c: QueryC, q: Query)
    requires ValidQuery(c)
    ensures Follows(YieldTrailer(c), {"over", "step", "order", "limit"})
    ensures PTrailer(YieldTrailer(c), q) == Parsed(
        q.(over := TreeOf(c).over, step := TreeOf(c).step, orderBy := TreeOf(c).orderBy, limit := TreeOf(c).limit), [])
  {
    hide PWindow, POrderBy, PLimit;
    var y4 := YieldWord("limit", c.limit);
    var y3 := YieldOrder(c.orderBy) + y4;
    var y2 := YieldWord("step", c.step) + y3;
    LimitParses(c.limit);
    OrderParses(c.orderBy, y4);
    WindowParses("step", c.step, y3);
    WindowParses("over", c.over, y2);
  }

  lemma NoItems<T>(item: Tok -> Option<T>)
    ensures Items([], item) == []
  {
  }

  lemma GroupByParses(items: seq<Tok>, rest: seq<Tok>)
    requires AllItems(items, IdentItem)
    requires Follows(rest, {"where", "over", "step", "order", "limit"})
    ensures PGroupBy(YieldBy(items) + rest) == Parsed(Items(items, IdentItem), rest)
  {
    hide PList, YieldList, Items;
    var ts := YieldBy(items) + rest;
    if items == [] {
      NoItems(IdentItem);
      assert ts == rest;
    } else {
      assert ts[1..] == YieldList(items) + rest;
      ListParses(items, IdentItem, rest);
    }
  }

  lemma FilterParses(f: Option<ExprC>, rest: seq<Tok>)
    requires f.Some? ==> ValidExpr(f.value)
    requires Follows(rest, {"over", "step", "order", "limit"})
    ensures PFilter(YieldFilter(f) + rest) == Parsed(if f.Some? then Some(ExprOf(f.value)) else None, rest)
  {
    hide POrs, YieldExpr, Alternatives;
    var ts := YieldFilter(f) + rest;
    if f.Some? {
      ExprParses(f.value, rest);
      assert ts[1..] == YieldExpr(f.value) + rest;
    } else {
      assert ts == rest;
    }
  }

  // The parser accepts every derivation and returns the tree it stands for.
  lemma DerivationParses(c: QueryC)
    requires ValidQuery(c)
    ensures ParseTokens(Yield(c)) == Parsed(TreeOf(c), [])
  {
    hide PGroupBy, PFilter, PTrailer, YieldTrailer;
    var y2 := YieldTrailer(c);
    var y1 := YieldFilter(c.filter) + y2;
    var t := TreeOf(c);
    TrailerParses(c, Query(t.metric, t.groupBy, t.filter, None, None, None, None));
    FilterParses(c.filter, y2);
    GroupByParses(c.groupBy, y1);
    assert Yield(c)[1..] == YieldBy(c.groupBy) + y1;
  }
}
