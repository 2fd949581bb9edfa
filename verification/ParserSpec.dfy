// What the recursive-descent parser of pkg/netql/parser.go computes: one
// function per production, on the tokens still to be read. The token list has
// no end marker here; reading past its end sees EOF.

module ParserSpec {
  import opened Options
  import opened Decimal
  import opened NetqlTypes
  import opened Numbers

  // Parsed(val, rest): a value and the tokens after it. Failed(at): the
  // tokens from the offending one on.
  datatype Result<+T> = Parsed(val: T, rest: seq<Tok>) | Failed(at: seq<Tok>) {
    predicate IsFailure() { Failed? }
    function PropagateFailure<U>(): Result<U> requires Failed? { Failed(at) }
    function Extract(): (T, seq<Tok>) requires Parsed? { (val, rest) }
  }

  function Peek(ts: seq<Tok>): Tok {
    if ts == [] then EOF else ts[0]
  }

  predicate NextIs(ts: seq<Tok>, w: string) {
    Peek(ts) == Kw(w)
  }

  // A production that reads at least one token, and one that may read none.
  predicate Consumes<T>(r: Result<T>, ts: seq<Tok>) {
    match r
    case Parsed(_, rest) => |rest| < |ts|
    case Failed(at) => |at| <= |ts|
  }

  predicate Stays<T>(r: Result<T>, ts: seq<Tok>) {
    match r
    case Parsed(_, rest) => |rest| <= |ts|
    case Failed(at) => |at| <= |ts|
  }

  function PKind(ts: seq<Tok>, k: TokenKind): (r: Result<string>)
    ensures Consumes(r, ts)
  {
    if ts != [] && ts[0].kind == k then Parsed(ts[0].value, ts[1..]) else Failed(ts)
  }

  function PKeyword(ts: seq<Tok>, w: string): (r: Result<()>)
    ensures Consumes(r, ts)
  {
    if NextIs(ts, w) then Parsed((), ts[1..]) else Failed(ts)
  }

  // ---- Leaves: identifiers, numbers, durations ----

  // What the token t contributes to a list of identifiers, strings or numbers.
  function IdentItem(t: Tok): Option<string> {
    if t.kind == TokIdent then Some(t.value) else None
  }

  function StringItem(t: Tok): Option<string> {
    if t.kind == TokString then Some(t.value) else None
  }

  function NumberItem(t: Tok): Option<real> {
    if t.kind in {TokNumber, TokInt} then ParseFloat(t.value) else None
  }

  function DurationItem(t: Tok): Option<Duration> {
    var v := t.value;
    if t.kind != TokDuration || |v| < 2 then None
    else
      match Atoi(v[..|v| - 1])
      case None => None
      case Some(n) => if n <= 0 then None else Some(Duration(n, v[|v| - 1]))
  }

  function LimitItem(t: Tok): Option<int> {
    if t.kind == TokInt then Atoi(t.value) else None
  }

  function POne<T>(ts: seq<Tok>, item: Tok -> Option<T>): (r: Result<T>)
    ensures Consumes(r, ts)
  {
    if ts != [] && item(ts[0]).Some? then Parsed(item(ts[0]).value, ts[1..]) else Failed(ts)
  }

  // item { "," item }
  function PList<T>(ts: seq<Tok>, item: Tok -> Option<T>): (r: Result<seq<T>>)
    ensures Consumes(r, ts)
    decreases |ts|
  {
    var (first, rest) :- POne(ts, item);
    if Peek(rest).kind == TokComma then
      var (more, rest') :- PList(rest[1..], item);
      Parsed([first] + more, rest')
    else
      Parsed([first], rest)
  }

  // ---- Predicates ----

  function OpOf(t: Tok): Option<Op> {
    match t.kind
    case TokEq => Some(OpEq)
    case TokNe => Some(OpNe)
    case TokLt => Some(OpLt)
    case TokLe => Some(OpLe)
    case TokGt => Some(OpGt)
    case TokGe => Some(OpGe)
    case TokKeyword =>
      if t.value == "in" then Some(OpIn)
      else if t.value == "contains" then Some(OpContains)
      else if t.value == "matches" then Some(OpMatches)
      else None
    case _ => None
  }

  function ScalarItem(t: Tok): Option<Value> {
    if t.kind == TokString then Some(ValString(t.value))
    else match NumberItem(t)
         case Some(n) => Some(ValNumber(n))
         case None => None
  }

  // "(" string {"," string} ")" | "(" number {"," number} ")"
  function PValueList(ts: seq<Tok>): (r: Result<Value>)
    ensures Consumes(r, ts)
  {
    var (_, rest) :- PKind(ts, TokLParen);
    if Peek(rest).kind == TokString then
      var (ss, rest') :- PList(rest, StringItem);
      var (_, rest'') :- PKind(rest', TokRParen);
      Parsed(ValStringList(ss), rest'')
    else
      var (ns, rest') :- PList(rest, NumberItem);
      var (_, rest'') :- PKind(rest', TokRParen);
      Parsed(ValNumberList(ns), rest'')
  }

  function PValue(ts: seq<Tok>, op: Op): (r: Result<Value>)
    ensures Consumes(r, ts)
  {
    if op == OpIn then PValueList(ts) else POne(ts, ScalarItem)
  }

  function PPredicate(ts: seq<Tok>): (r: Result<Predicate>)
    ensures Consumes(r, ts)
  {
    var (field, r1) :- POne(ts, IdentItem);
    var (op, r2) :- POne(r1, OpOf);
    var (value, r3) :- PValue(r2, op);
    Parsed(Predicate(field, op, value), r3)
  }

  // ---- Boolean expressions: or below and below not ----

  // A list of one stays as it is; longer lists become an n-ary node.
  function OrNode(es: seq<Expr>): Expr {
    if |es| == 1 then es[0] else Or(es)
  }

  function AndNode(es: seq<Expr>): Expr {
    if |es| == 1 then es[0] else And(es)
  }

  // expr = and_expr { "or" and_expr }
  function PExpr(ts: seq<Tok>): (r: Result<Expr>)
    ensures Consumes(r, ts)
    decreases |ts|, 5
  {
    var (es, rest) :- POrs(ts);
    Parsed(OrNode(es), rest)
  }

  function POrs(ts: seq<Tok>): (r: Result<seq<Expr>>)
    ensures r.Parsed? ==> |r.rest| < |ts| && |r.val| > 0
    ensures r.Failed? ==> |r.at| <= |ts|
    decreases |ts|, 4
  {
    var (e, rest) :- PAndExpr(ts);
    if NextIs(rest, "or") then
      var (more, rest') :- POrs(rest[1..]);
      Parsed([e] + more, rest')
    else
      Parsed([e], rest)
  }

  // and_expr = unary { "and" unary }
  function PAndExpr(ts: seq<Tok>): (r: Result<Expr>)
    ensures Consumes(r, ts)
    decreases |ts|, 3
  {
    var (es, rest) :- PAnds(ts);
    Parsed(AndNode(es), rest)
  }

  function PAnds(ts: seq<Tok>): (r: Result<seq<Expr>>)
    ensures r.Parsed? ==> |r.rest| < |ts| && |r.val| > 0
    ensures r.Failed? ==> |r.at| <= |ts|
    decreases |ts|, 2
  {
    var (e, rest) :- PUnary(ts);
    if NextIs(rest, "and") then
      var (more, rest') :- PAnds(rest[1..]);
      Parsed([e] + more, rest')
    else
      Parsed([e], rest)
  }

  // unary = [ "not" ] term
  function PUnary(ts: seq<Tok>): (r: Result<Expr>)
    ensures Consumes(r, ts)
    decreases |ts|, 1
  {
    if NextIs(ts, "not") then
      var (e, rest) :- PTerm(ts[1..]);
      Parsed(Not(e), rest)
    else
      PTerm(ts)
  }

  // term = predicate | "(" expr ")"
  function PTerm(ts: seq<Tok>): (r: Result<Expr>)
    ensures Consumes(r, ts)
    decreases |ts|, 0
  {
    if Peek(ts).kind == TokLParen then
      var (e, rest) :- PExpr(ts[1..]);
      var (_, rest') :- PKind(rest, TokRParen);
      Parsed(e, rest')
    else
      var (p, rest) :- PPredicate(ts);
      Parsed(Pred(p), rest)
  }

  // ---- The query and its optional clauses, in their fixed order ----

  // groupby = "by" identifier { "," identifier }
  function PGroupClause(ts: seq<Tok>): (r: Result<seq<string>>)
    ensures Consumes(r, ts)
  {
    var (_, rest) :- PKeyword(ts, "by");
    PList(rest, IdentItem)
  }

  function PGroupBy(ts: seq<Tok>): (r: Result<seq<string>>)
    ensures Stays(r, ts)
  {
    if NextIs(ts, "by") then PGroupClause(ts) else Parsed([], ts)
  }

  function PFilter(ts: seq<Tok>): (r: Result<Option<Expr>>)
    ensures Stays(r, ts)
  {
    if NextIs(ts, "where") then
      var (e, rest) :- PExpr(ts[1..]);
      Parsed(Some(e), rest)
    else Parsed(None, ts)
  }

  // "over" and "step".
  function PWindow(ts: seq<Tok>, w: string): (r: Result<Option<Duration>>)
    ensures Stays(r, ts)
  {
    if NextIs(ts, w) then
      var (d, rest) :- POne(ts[1..], DurationItem);
      Parsed(Some(d), rest)
    else Parsed(None, ts)
  }

  function PDirection(ts: seq<Tok>): (r: Result<Direction>)
    ensures Stays(r, ts)
  {
    if NextIs(ts, "asc") then Parsed(DirAsc, ts[1..])
    else if NextIs(ts, "desc") then Parsed(DirDesc, ts[1..])
    else Parsed(DirAsc, ts)
  }

  // orderby = "order" "by" identifier [ direction ]
  function POrderClause(ts: seq<Tok>): (r: Result<OrderBy>)
    ensures Consumes(r, ts)
  {
    var (_, r1) :- PKeyword(ts, "order");
    var (_, r2) :- PKeyword(r1, "by");
    var (field, r3) :- POne(r2, IdentItem);
    var (dir, r4) :- PDirection(r3);
    Parsed(OrderBy(field, dir), r4)
  }

  function POrderBy(ts: seq<Tok>): (r: Result<Option<OrderBy>>)
    ensures Stays(r, ts)
  {
    if NextIs(ts, "order") then
      var (ob, rest) :- POrderClause(ts);
      Parsed(Some(ob), rest)
    else Parsed(None, ts)
  }

  function PLimit(ts: seq<Tok>): (r: Result<Option<int>>)
    ensures Stays(r, ts)
  {
    if NextIs(ts, "limit") then
      var (n, rest) :- POne(ts[1..], LimitItem);
      Parsed(Some(n), rest)
    else Parsed(None, ts)
  }

  function PQuery(ts: seq<Tok>): (r: Result<Query>)
    ensures Consumes(r, ts)
  {
    var (metric, r0) :- POne(ts, IdentItem);
    var (groupBy, r1) :- PGroupBy(r0);
    var (filter, r2) :- PFilter(r1);
    PTrailer(r2, Query(metric, groupBy, filter, None, None, None, None))
  }

  // The clauses behind the filter.
  function PTrailer(ts: seq<Tok>, q: Query): (r: Result<Query>)
    ensures Stays(r, ts)
  {
    var (over, r1) :- PWindow(ts, "over");
    var (step, r2) :- PWindow(r1, "step");
    var (orderBy, r3) :- POrderBy(r2);
    var (limit, r4) :- PLimit(r3);
    Parsed(q.(over := over, step := step, orderBy := orderBy, limit := limit), r4)
  }

  // A whole token list: a query and nothing after it.
  function ParseTokens(ts: seq<Tok>): Result<Query> {
    var (q, rest) :- PQuery(ts);
    if rest == [] then Parsed(q, []) else Failed(rest)
  }
}
