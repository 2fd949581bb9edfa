// A small reader and evaluator for the SQL conditions the ClickHouse backend
// writes: an independent definition of what the emitted WHERE clause means.

module Sql {
  import opened Options
  import opened NetqlTypes

  datatype SqlVal = SStr(s: string) | SNum(n: real)

  datatype SqlTok =
    | SqlLParen | SqlRParen | SqlComma
    | SqlAnd | SqlOr | SqlNot | SqlIn
    | SqlName(name: string)
    | SqlCmp(op: Op)
    | SqlParam(k: nat)             // $k
    | SqlNumber(n: int)
    | SqlNow | SqlMinus | SqlInterval
    | SqlWhere

  datatype Atom =
    | Compare(col: string, op: Op, k: nat)
    | InList(col: string, ks: seq<nat>)
    | Call(fn: string, col: string, k: nat, positive: bool)   // fn(col, $k) [> 0]
    | Since(col: string, count: int, unit: string)            // col >= now() - INTERVAL count unit

  datatype Cond =
    | CAtom(a: Atom)
    | CAnd(l: Cond, r: Cond)
    | COr(l: Cond, r: Cond)
    | CNot(c: Cond)

  datatype Read<+T> = Got(val: T, rest: seq<SqlTok>) | Syntax {
    predicate IsFailure() { Syntax? }
    function PropagateFailure<U>(): Read<U> requires Syntax? { Syntax }
    function Extract(): (T, seq<SqlTok>) requires Got? { (val, rest) }
  }

  function Peek(ts: seq<SqlTok>): Option<SqlTok> {
    if ts == [] then None else Some(ts[0])
  }

  // ---- Reading, with the precedence of SQL: NOT above AND above OR ----

  function ReadOr(ts: seq<SqlTok>): (r: Read<Cond>)
    ensures r.Got? ==> |r.rest| < |ts|
    decreases |ts|, 3
  {
    var (l, rest) :- ReadAnd(ts);
    if Peek(rest) == Some(SqlOr) then
      var (r, rest') :- ReadOr(rest[1..]);
      Got(COr(l, r), rest')
    else Got(l, rest)
  }

  function ReadAnd(ts: seq<SqlTok>): (r: Read<Cond>)
    ensures r.Got? ==> |r.rest| < |ts|
    decreases |ts|, 2
  {
    var (l, rest) :- ReadNot(ts);
    if Peek(rest) == Some(SqlAnd) then
      var (r, rest') :- ReadAnd(rest[1..]);
      Got(CAnd(l, r), rest')
    else Got(l, rest)
  }

  function ReadNot(ts: seq<SqlTok>): (r: Read<Cond>)
    ensures r.Got? ==> |r.rest| < |ts|
    decreases |ts|, 1
  {
    if Peek(ts) == Some(SqlNot) then
      var (c, rest) :- ReadNot(ts[1..]);
      Got(CNot(c), rest)
    else if Peek(ts) == Some(SqlLParen) then
      var (c, rest) :- ReadOr(ts[1..]);
      if Peek(rest) == Some(SqlRParen) then Got(c, rest[1..]) else Syntax
    else
      var (a, rest) :- ReadAtom(ts);
      Got(CAtom(a), rest)
  }

  function ReadAtom(ts: seq<SqlTok>): (r: Read<Atom>)
    ensures r.Got? ==> |r.rest| < |ts|
  {
    if |ts| < 3 || !ts[0].SqlName? then Syntax
    else if ts[1].SqlCmp? && ts[2].SqlParam? then Got(Compare(ts[0].name, ts[1].op, ts[2].k), ts[3..])
    else if ts[1] == SqlIn && ts[2] == SqlLParen then
      var (ks, rest) :- ReadParams(ts[3..]);
      Got(InList(ts[0].name, ks), rest)
    else if ts[1] == SqlCmp(OpGe) && ts[2] == SqlNow then
      if |ts| >= 7 && ts[3] == SqlMinus && ts[4] == SqlInterval && ts[5].SqlNumber? && ts[6].SqlName?
      then Got(Since(ts[0].name, ts[5].n, ts[6].name), ts[7..])
      else Syntax
    else if ts[1] == SqlLParen && |ts| >= 6 && ts[2].SqlName? && ts[3] == SqlComma && ts[4].SqlParam? && ts[5] == SqlRParen then
      if |ts| >= 8 && ts[6] == SqlCmp(OpGt) && ts[7] == SqlNumber(0)
      then Got(Call(ts[0].name, ts[2].name, ts[4].k, true), ts[8..])
      else Got(Call(ts[0].name, ts[2].name, ts[4].k, false), ts[6..])
    else Syntax
  }

  // $k {, $k} ")"
  function ReadParams(ts: seq<SqlTok>): (r: Read<seq<nat>>)
    ensures r.Got? ==> |r.rest| <= |ts|
    decreases |ts|
  {
    if |ts| < 2 || !ts[0].SqlParam? then Syntax
    else if ts[1] == SqlRParen then Got([ts[0].k], ts[2..])
    else if ts[1] == SqlComma then
      var (ks, rest) :- ReadParams(ts[2..]);
      Got([ts[0].k] + ks, rest)
    else Syntax
  }

  // WHERE condition, and nothing behind it.
  function ReadWhere(ts: seq<SqlTok>): Option<Cond> {
    if Peek(ts) != Some(SqlWhere) then None
    else match ReadOr(ts[1..])
         case Syntax => None
         case Got(c, rest) => if rest == [] then Some(c) else None
  }

  // ---- Meaning ----

  // What a condition is evaluated against: a row, the bound arguments, the
  // current time in seconds, and the engine's regex match.
  datatype Env = Env(row: map<string, SqlVal>, args: seq<SqlVal>, now: real, rx: (string, string) -> bool)

  function Column(env: Env, col: string): Option<SqlVal> {
    if col in env.row then Some(env.row[col]) else None
  }

  function Arg(env: Env, k: nat): Option<SqlVal> {
    if 1 <= k <= |env.args| then Some(env.args[k - 1]) else None
  }

  // Comparison of two values of one type; anything else is no match.
  predicate Compares(op: Op, a: SqlVal, b: SqlVal) {
    match op
    case OpEq => a == b
    case OpNe => a != b
    case _ => a.SNum? && b.SNum? && Orders(op, a.n, b.n)
  }

  predicate Orders(op: Op, a: real, b: real) {
    match op
    case OpLt => a < b
    case OpLe => a <= b
    case OpGt => a > b
    case OpGe => a >= b
    case _ => false
  }

  predicate OccursAt(hay: string, needle: string, i: nat) {
    i + |needle| <= |hay| && hay[i..i + |needle|] == needle
  }

  // position(hay, needle): one past the offset of the first occurrence, or 0.
  function Position(hay: string, needle: string): nat {
    PositionFrom(hay, needle, 0)
  }

  function PositionFrom(hay: string, needle: string, i: nat): nat
    decreases |hay| - i
  {
    if i + |needle| > |hay| then 0
    else if OccursAt(hay, needle, i) then i + 1
    else PositionFrom(hay, needle, i + 1)
  }

  function UnitSeconds(unit: string): real {
    if unit == "SECOND" then 1.0
    else if unit == "MINUTE" then 60.0
    else if unit == "HOUR" then 3600.0
    else if unit == "DAY" then 86400.0
    else if unit == "WEEK" then 604800.0
    else 0.0
  }

  predicate EvalAtom(a: Atom, env: Env) {
    match a
    case Compare(col, op, k) =>
      Column(env, col).Some? && Arg(env, k).Some? && Compares(op, Column(env, col).value, Arg(env, k).value)
    case InList(col, ks) =>
      Column(env, col).Some? && exists k <- ks :: Arg(env, k) == Column(env, col)
    case Call(fn, col, k, positive) =>
      (match (Column(env, col), Arg(env, k))
       case (Some(SStr(s)), Some(SStr(t))) =>
         if fn == "position" && positive then Position(s, t) > 0
         else if fn == "match" && !positive then env.rx(s, t)
         else false
       case _ => false)
    case Since(col, count, unit) =>
      (match Column(env, col)
       case Some(SNum(t)) => t >= env.now - count as real * UnitSeconds(unit)
       case _ => false)
  }

  predicate Eval(c: Cond, env: Env) {
    match c
    case CAtom(a) => EvalAtom(a, env)
    case CAnd(l, r) => Eval(l, env) && Eval(r, env)
    case COr(l, r) => Eval(l, env) || Eval(r, env)
    case CNot(c) => !Eval(c, env)
  }

  ghost predicate Contains(hay: string, needle: string) {
    exists i: nat :: OccursAt(hay, needle, i)
  }

  lemma {:induction false} PositionFromFinds(hay: string, needle: string, i: nat)
    ensures PositionFrom(hay, needle, i) > 0 <==> exists j: nat :: i <= j && OccursAt(hay, needle, j)
    decreases |hay| - i
  {
    if i + |needle| <= |hay| && !OccursAt(hay, needle, i) {
      PositionFromFinds(hay, needle, i + 1);
    }
  }

  // position(...) > 0 is the substring test.
  lemma PositionFinds(hay: string, needle: string)
    ensures Position(hay, needle) > 0 <==> Contains(hay, needle)
  {
    PositionFromFinds(hay, needle, 0);
  }
}
