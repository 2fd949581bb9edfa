// The parser of pkg/netql/parser.go: a cursor over the lexer's tokens, moved
// in place, with one method per production. Each method is proved to compute
// its function in ParserSpec and to leave the cursor where that says.

module Parser {
  import opened Options
  import opened NetqlTypes
  import opened Numbers
  import opened Lexer
  import opened LexerProps
  import opened ParserSpec

  // A parse error reports the token it stopped at.
  datatype Outcome<+T> = Ok(value: T) | Error(at: Token) {
    predicate IsFailure() { Error? }
    function PropagateFailure<U>(): Outcome<U> requires Error? { Error(at) }
    function Extract(): T requires Ok? { value }
  }

  // The tokens before the closing EOF, as ParserSpec sees them.
  function Body(toks: seq<Token>): seq<Tok>
    requires toks != []
  {
    Bare(toks[..|toks| - 1])
  }

  // One EOF, at the end.
  predicate Closed(toks: seq<Token>) {
    && toks != []
    && toks[|toks| - 1].tok == EOF
    && forall i :: 0 <= i < |toks| - 1 ==> toks[i].tok.kind != TokEOF
  }

  // The rest of a comma or keyword separated list, the first items being read.
  function Append<T>(items: seq<T>, r: Result<seq<T>>): Result<seq<T>> {
    match r
    case Parsed(more, rest) => if items == [] then r else Parsed(items + more, rest)
    case Failed(at) => Failed(at)
  }

  function MoreItems<T>(items: seq<T>, ts: seq<Tok>, item: Tok -> Option<T>): Result<seq<T>> {
    if Peek(ts).kind == TokComma then Append(items, PList(ts[1..], item)) else Parsed(items, ts)
  }

  function MoreOrs(terms: seq<Expr>, ts: seq<Tok>): Result<seq<Expr>> {
    if NextIs(ts, "or") then Append(terms, POrs(ts[1..])) else Parsed(terms, ts)
  }

  function MoreAnds(terms: seq<Expr>, ts: seq<Tok>): Result<seq<Expr>> {
    if NextIs(ts, "and") then Append(terms, PAnds(ts[1..])) else Parsed(terms, ts)
  }

  lemma AppendOne<T>(items: seq<T>, x: T, more: seq<T>, rest: seq<Tok>)
    ensures Append(items, Parsed([x] + more, rest)) == Append(items + [x], Parsed(more, rest))
    ensures Append(items, Parsed([x], rest)) == Parsed(items + [x], rest)
  {
    assert items + ([x] + more) == items + [x] + more;
    assert items == [] ==> items + [x] == [x];
  }

  lemma NextItem<T>(items: seq<T>, ts: seq<Tok>, item: Tok -> Option<T>)
    ensures match POne(ts, item)
            case Failed(at) => Append(items, PList(ts, item)) == Failed(at)
            case Parsed(x, rest) => Append(items, PList(ts, item)) == MoreItems(items + [x], rest, item)
  {
    hide Append;
    match POne(ts, item)
    case Failed(_) => AppendFailed(items, PList(ts, item));
    case Parsed(x, rest) =>
      if Peek(rest).kind == TokComma && PList(rest[1..], item).Parsed? {
        AppendOne(items, x, PList(rest[1..], item).val, PList(rest[1..], item).rest);
      } else if Peek(rest).kind == TokComma {
        AppendFailed(items, PList(ts, item));
        AppendFailed(items + [x], PList(rest[1..], item));
      } else {
        AppendOne(items, x, [], rest);
      }
  }

  lemma FirstItem<T>(ts: seq<Tok>, item: Tok -> Option<T>)
    ensures match POne(ts, item)
            case Failed(at) => PList(ts, item) == Failed(at)
            case Parsed(x, rest) => PList(ts, item) == MoreItems([x], rest, item)
  {
    hide PList, POne;
    NextItem([], ts, item);
    assert Append([], PList(ts, item)) == PList(ts, item);
    assert forall x: T :: [] + [x] == [x];
  }

  lemma AppendFailed<T>(items: seq<T>, r: Result<seq<T>>)
    requires r.Failed?
    ensures Append(items, r) == r
  {
  }

  lemma NextOr(terms: seq<Expr>, ts: seq<Tok>)
    ensures match PAndExpr(ts)
            case Failed(at) => Append(terms, POrs(ts)) == Failed(at)
            case Parsed(e, rest) => Append(terms, POrs(ts)) == MoreOrs(terms + [e], rest)
  {
    if PAndExpr(ts).Parsed? {
      var x, rest := PAndExpr(ts).val, PAndExpr(ts).rest;
      AppendOne(terms, x, [], rest);
      if NextIs(rest, "or") && POrs(rest[1..]).Parsed? {
        AppendOne(terms, x, POrs(rest[1..]).val, POrs(rest[1..]).rest);
      }
    }
  }

  lemma NextAnd(terms: seq<Expr>, ts: seq<Tok>)
    ensures match PUnary(ts)
            case Failed(at) => Append(terms, PAnds(ts)) == Failed(at)
            case Parsed(e, rest) => Append(terms, PAnds(ts)) == MoreAnds(terms + [e], rest)
  {
    if PUnary(ts).Parsed? {
      var x, rest := PUnary(ts).val, PUnary(ts).rest;
      AppendOne(terms, x, [], rest);
      if NextIs(rest, "and") && PAnds(rest[1..]).Parsed? {
        AppendOne(terms, x, PAnds(rest[1..]).val, PAnds(rest[1..]).rest);
      }
    }
  }

  class Parser {
    const toks: seq<Token>
    var pos: nat

    constructor (toks: seq<Token>)
      requires Closed(toks)
      ensures this.toks == toks && pos == 0 && Valid()
    {
      this.toks, pos := toks, 0;
    }

    predicate Valid()
      reads this`pos
    {
      Closed(toks) && pos < |toks|
    }

    // The tokens still to be read.
    ghost function Rest(): seq<Tok>
      requires Valid()
      reads this`pos
    {
      Body(toks)[pos..]
    }

    // r and the cursor are what `spec` says.
    ghost predicate Agrees<T>(r: Outcome<T>, spec: Result<T>)
      requires Valid()
      reads this`pos
    {
      match spec
      case Parsed(x, rest) => r == Ok(x) && Rest() == rest
      case Failed(at) => |at| < |toks| && r == Error(toks[|toks| - 1 - |at|])
    }

    method PeekToken() returns (t: Token)
      requires Valid()
      ensures t == toks[pos] && t.tok == Peek(Rest())
    {
      t := toks[pos];
    }

    method Advance() returns (t: Token)
      requires Valid()
      modifies this`pos
      ensures Valid() && pos >= old(pos)
      ensures t == toks[old(pos)]
      ensures old(Rest()) != [] ==> Rest() == old(Rest())[1..]
    {
      t := toks[pos];
      if pos < |toks| - 1 {
        pos := pos + 1;
      }
    }

    // accept: moves on exactly if the next token has the kind and, when
    // values are given, one of them.
    method Accept(kind: TokenKind, values: seq<string>) returns (t: Token, ok: bool)
      requires Valid() && kind != TokEOF
      modifies this`pos
      ensures Valid()
      ensures ok == (Peek(old(Rest())).kind == kind && (values == [] || Peek(old(Rest())).value in values))
      ensures ok ==> pos > old(pos) && old(Rest()) != [] && t.tok == old(Rest())[0] && Rest() == old(Rest())[1..]
      ensures !ok ==> pos == old(pos)
    {
      t := PeekToken();
      ok := false;
      if t.tok.kind != kind {
        return;
      }
      if |values| > 0 {
        var found := false;
        for i := 0 to |values|
          invariant !found ==> t.tok.value !in values[..i]
          invariant found ==> t.tok.value in values
        {
          if t.tok.value == values[i] {
            found := true;
            break;
          }
        }
        if !found {
          return;
        }
      }
      ok := true;
      t := Advance();
    }

    method Expect(kind: TokenKind, values: seq<string>) returns (r: Outcome<Token>)
      requires Valid() && kind != TokEOF
      modifies this`pos
      ensures Valid()
      ensures r.Ok? == (Peek(old(Rest())).kind == kind && (values == [] || Peek(old(Rest())).value in values))
      ensures r.Ok? ==> pos > old(pos) && old(Rest()) != [] && r.value == toks[old(pos)] && r.value.tok == old(Rest())[0] && Rest() == old(Rest())[1..]
      ensures r.Error? ==> r.at == toks[old(pos)] && pos == old(pos)
    {
      var t, ok := Accept(kind, values);
      if !ok {
        t := PeekToken();
        return Error(t);
      }
      return Ok(toks[pos - 1]);
    }

    // query = metric [ groupby ] [ filter ] [ over ] [ step ] [ orderby ] [ limit ]
    method ParseQuery() returns (r: Outcome<Query>)
      requires Valid()
      modifies this`pos
      ensures Valid() && Agrees(r, PQuery(old(Rest())))
    {
      hide PExpr, PGroupClause, PTrailer, Closed;
      var mt :- Expect(TokIdent, []);
      var q := Query(mt.tok.value, [], None, None, None, None, None);
      var t := PeekToken();
      if t.tok == Kw("by") {
        var gb :- ParseGroupBy();
        q := q.(groupBy := gb);
      }
      t := PeekToken();
      if t.tok == Kw("where") {
        var _ := Advance();
        var e :- ParseExpr();
        q := q.(filter := Some(e));
      }
      r := ParseTrailer(q);
    }

    // The clauses behind the filter.
    method ParseTrailer(query: Query) returns (r: Outcome<Query>)
      requires Valid()
      requires query.orderBy == None && query.limit == None
      modifies this`pos
      ensures Valid() && Agrees(r, PTrailer(old(Rest()), query))
    {
      hide PWindow, POrderClause, Atoi, Closed;
      var q := query;
      var over :- ParseWindow("over");
      q := q.(over := over);
      var step :- ParseWindow("step");
      q := q.(step := step);
      var t := PeekToken();
      if t.tok == Kw("order") {
        var ob :- ParseOrderBy();
        q := q.(orderBy := Some(ob));
      }
      t := PeekToken();
      if t.tok == Kw("limit") {
        var _ := Advance();
        var n :- ParseLimit();
        q := q.(limit := Some(n));
      }
      return Ok(q);
    }

    method ParseLimit() returns (r: Outcome<int>)
      requires Valid()
      modifies this`pos
      ensures Valid() && Agrees(r, POne(old(Rest()), LimitItem))
    {
      var nt :- Expect(TokInt, []);
      var n := Atoi(nt.tok.value);
      if n == None {
        return Error(nt);
      }
      return Ok(n.value);
    }

    // [ w duration ], for w = "over" and w = "step".
    method ParseWindow(w: string) returns (r: Outcome<Option<Duration>>)
      requires Valid()
      modifies this`pos
      ensures Valid() && Agrees(r, PWindow(old(Rest()), w))
    {
      var t := PeekToken();
      if t.tok != Kw(w) {
        return Ok(None);
      }
      var _ := Advance();
      var dt :- Expect(TokDuration, []);
      var d := DurationItem(dt.tok);
      if d == None {
        return Error(dt);
      }
      return Ok(d);
    }

    method ParseGroupBy() returns (r: Outcome<seq<string>>)
      requires Valid()
      modifies this`pos
      ensures Valid() && Agrees(r, PGroupClause(old(Rest())))
    {
      var _ :- Expect(TokKeyword, ["by"]);
      r := ParseIdentList();
    }

    method ParseIdentList() returns (r: Outcome<seq<string>>)
      requires Valid()
      modifies this`pos
      ensures Valid() && pos >= old(pos)
      ensures Agrees(r, PList(old(Rest()), IdentItem))
    {
      hide PList, POne, IdentItem, Append, Closed, Bare;
      ghost var start := Rest();
      FirstItem(start, IdentItem);
      TextHere(start);
      var first :- Expect(TokIdent, []);
      var out := [first.tok.value];
      while true
        invariant Valid() && pos >= old(pos)
        invariant PList(start, IdentItem) == MoreItems(out, Rest(), IdentItem)
        decreases |toks| - pos
      {
        var _, ok := Accept(TokComma, []);
        if !ok {
          break;
        }
        NextItem(out, Rest(), IdentItem);
        TextHere(Rest());
        var nxt :- Expect(TokIdent, []);
        out := out + [nxt.tok.value];
      }
      return Ok(out);
    }

    method ParseStringList() returns (r: Outcome<seq<string>>)
      requires Valid()
      modifies this`pos
      ensures Valid() && pos >= old(pos)
      ensures Agrees(r, PList(old(Rest()), StringItem))
    {
      hide PList, POne, StringItem, Append, Closed, Bare;
      ghost var start := Rest();
      FirstItem(start, StringItem);
      TextHere(start);
      var first :- Expect(TokString, []);
      var out := [first.tok.value];
      while true
        invariant Valid() && pos >= old(pos)
        invariant PList(start, StringItem) == MoreItems(out, Rest(), StringItem)
        decreases |toks| - pos
      {
        var _, ok := Accept(TokComma, []);
        if !ok {
          break;
        }
        NextItem(out, Rest(), StringItem);
        TextHere(Rest());
        var nxt :- Expect(TokString, []);
        out := out + [nxt.tok.value];
      }
      return Ok(out);
    }

    method ParseOrderBy() returns (r: Outcome<OrderBy>)
      requires Valid()
      modifies this`pos
      ensures Valid() && Agrees(r, POrderClause(old(Rest())))
    {
      hide Closed, Bare;
      var _ :- Expect(TokKeyword, ["order"]);
      var _ :- Expect(TokKeyword, ["by"]);
      var id :- Expect(TokIdent, []);
      var ob := OrderBy(id.tok.value, DirAsc);
      var t, ok := Accept(TokKeyword, ["asc", "desc"]);
      if ok {
        ob := ob.(direction := if t.tok.value == "asc" then DirAsc else DirDesc);
      }
      return Ok(ob);
    }

    // expr = and_expr { "or" and_expr }
    method ParseExpr() returns (r: Outcome<Expr>)
      requires Valid()
      modifies this`pos
      ensures Valid() && pos >= old(pos)
      ensures Agrees(r, PExpr(old(Rest())))
      decreases |toks| - pos, 3
    {
      hide POrs, PAndExpr, Closed;
      ghost var start := Rest();
      NextOr([], start);
      var left :- ParseAndExpr();
      assert [] + [left] == [left];
      var t := PeekToken();
      if t.tok != Kw("or") {
        return Ok(left);
      }
      var terms := [left];
      while true
        invariant Valid() && pos >= old(pos) && |terms| > 0
        invariant |terms| == 1 ==> NextIs(Rest(), "or")
        invariant POrs(start) == MoreOrs(terms, Rest())
        decreases |toks| - pos
      {
        var _, ok := Accept(TokKeyword, ["or"]);
        if !ok {
          break;
        }
        NextOr(terms, Rest());
        var next :- ParseAndExpr();
        terms := terms + [next];
      }
      return Ok(Or(terms));
    }

    // and_expr = unary { "and" unary }
    method ParseAndExpr() returns (r: Outcome<Expr>)
      requires Valid()
      modifies this`pos
      ensures Valid() && pos >= old(pos)
      ensures Agrees(r, PAndExpr(old(Rest())))
      decreases |toks| - pos, 2
    {
      hide PAnds, PUnary, Closed;
      ghost var start := Rest();
      NextAnd([], start);
      var left :- ParseUnary();
      assert [] + [left] == [left];
      var t := PeekToken();
      if t.tok != Kw("and") {
        return Ok(left);
      }
      var terms := [left];
      while true
        invariant Valid() && pos >= old(pos) && |terms| > 0
        invariant |terms| == 1 ==> NextIs(Rest(), "and")
        invariant PAnds(start) == MoreAnds(terms, Rest())
        decreases |toks| - pos
      {
        var _, ok := Accept(TokKeyword, ["and"]);
        if !ok {
          break;
        }
        NextAnd(terms, Rest());
        var next :- ParseUnary();
        terms := terms + [next];
      }
      return Ok(And(terms));
    }

    // unary = [ "not" ] term
    method ParseUnary() returns (r: Outcome<Expr>)
      requires Valid()
      modifies this`pos
      ensures Valid() && pos >= old(pos)
      ensures Agrees(r, PUnary(old(Rest())))
      decreases |toks| - pos, 1
    {
      var _, ok := Accept(TokKeyword, ["not"]);
      if ok {
        var inner :- ParseTerm();
        return Ok(Not(inner));
      }
      r := ParseTerm();
    }

    // term = predicate | "(" expr ")"
    method ParseTerm() returns (r: Outcome<Expr>)
      requires Valid()
      modifies this`pos
      ensures Valid() && pos >= old(pos)
      ensures Agrees(r, PTerm(old(Rest())))
      decreases |toks| - pos, 0
    {
      hide PExpr, PPredicate, Closed;
      var _, ok := Accept(TokLParen, []);
      if ok {
        var inner :- ParseExpr();
        var _ :- Expect(TokRParen, []);
        return Ok(inner);
      }
      var p :- ParsePredicate();
      return Ok(Pred(p));
    }

    // predicate = identifier op value
    method ParsePredicate() returns (r: Outcome<Predicate>)
      requires Valid()
      modifies this`pos
      ensures Valid() && pos >= old(pos)
      ensures Agrees(r, PPredicate(old(Rest())))
    {
      hide PValue, OpOf, Closed;
      var id :- Expect(TokIdent, []);
      var op :- ParseOp();
      var val :- ParseValue(op);
      return Ok(Predicate(id.tok.value, op, val));
    }

    method ParseOp() returns (r: Outcome<Op>)
      requires Valid()
      modifies this`pos
      ensures Valid() && pos >= old(pos)
      ensures Agrees(r, POne(old(Rest()), OpOf))
    {
      var t := PeekToken();
      var op := OpOf(t.tok);
      if op == None {
        return Error(t);
      }
      var _ := Advance();
      return Ok(op.value);
    }

    // Shaped by the operator: a list for `in`, one string or number otherwise.
    method ParseValue(op: Op) returns (r: Outcome<Value>)
      requires Valid()
      modifies this`pos
      ensures Valid() && pos >= old(pos)
      ensures Agrees(r, PValue(old(Rest()), op))
    {
      if op == OpIn {
        r := ParseValueList();
        return;
      }
      var t := PeekToken();
      if t.tok.kind == TokString {
        var _ := Advance();
        return Ok(ValString(t.tok.value));
      }
      if t.tok.kind in {TokNumber, TokInt} {
        var _ := Advance();
        var f := ParseFloat(t.tok.value);
        if f == None {
          return Error(t);
        }
        return Ok(ValNumber(f.value));
      }
      return Error(t);
    }

    method ParseValueList() returns (r: Outcome<Value>)
      requires Valid()
      modifies this`pos
      ensures Valid() && pos >= old(pos)
      ensures Agrees(r, PValueList(old(Rest())))
    {
      hide PList, POne, NumberItem, ParseFloat, Closed;
      var _ :- Expect(TokLParen, []);
      var first := PeekToken();
      if first.tok.kind == TokString {
        var strs :- ParseStringList();
        var _ :- Expect(TokRParen, []);
        return Ok(ValStringList(strs));
      }
      if first.tok.kind in {TokNumber, TokInt} {
        var nums :- ParseNumberList();
        var _ :- Expect(TokRParen, []);
        return Ok(ValNumberList(nums));
      }
      NoNumbers(Rest());
      return Error(first);
    }

    // The number under the cursor.
    method TakeNumber() returns (r: Outcome<real>)
      requires Valid() && Peek(Rest()).kind in {TokNumber, TokInt}
      modifies this`pos
      ensures Valid() && pos >= old(pos)
      ensures r.Ok? ==> pos > old(pos)
      ensures Agrees(r, POne(old(Rest()), NumberItem))
    {
      hide ParseFloat, Closed;
      var t := Advance();
      var f := ParseFloat(t.tok.value);
      if f == None {
        return Error(t);
      }
      return Ok(f.value);
    }

    method ParseNumberList() returns (r: Outcome<seq<real>>)
      requires Valid() && Peek(Rest()).kind in {TokNumber, TokInt}
      modifies this`pos
      ensures Valid() && pos >= old(pos)
      ensures Agrees(r, PList(old(Rest()), NumberItem))
    {
      hide PList, POne, NumberItem, Append, ParseFloat, Closed, Bare;
      ghost var start := Rest();
      FirstItem(start, NumberItem);
      var x :- TakeNumber();
      var out := [x];
      while true
        invariant Valid() && pos >= old(pos)
        invariant PList(start, NumberItem) == MoreItems(out, Rest(), NumberItem)
        decreases |toks| - pos
      {
        var _, ok := Accept(TokComma, []);
        if !ok {
          break;
        }
        NextItem(out, Rest(), NumberItem);
        var t := PeekToken();
        if t.tok.kind != TokNumber && t.tok.kind != TokInt {
          NoNumbers(Rest());
          return Error(t);
        }
        x :- TakeNumber();
        out := out + [x];
      }
      return Ok(out);
    }
  }

  // An identifier or string item is the text of a token of that kind.
  lemma TextHere(ts: seq<Tok>)
    ensures POne(ts, IdentItem) == if Peek(ts).kind == TokIdent then Parsed(ts[0].value, ts[1..]) else Failed(ts)
    ensures POne(ts, StringItem) == if Peek(ts).kind == TokString then Parsed(ts[0].value, ts[1..]) else Failed(ts)
  {
  }

  lemma NoNumbers(ts: seq<Tok>)
    requires Peek(ts).kind !in {TokNumber, TokInt}
    ensures POne(ts, NumberItem) == Failed(ts) && PList(ts, NumberItem) == Failed(ts)
  {
  }

  // A lexed text is one EOF behind tokens of other kinds.
  lemma {:induction false} LexCloses(s: string, at: nat)
    requires LexAt(s, at).LexOk?
    ensures Closed(LexAt(s, at).toks)
    decreases |s|
  {
    hide ScanToken, LexAt;
    var w := Skip(s);
    if w == |s| {
      LexEnd(s, at);
    } else {
      LexFirst(s, at);
      ScanLength(s[w..]);
      var n := ScanToken(s[w..]).len;
      LexCloses(s[w..][n..], at + w + n);
    }
  }

  datatype ParseOutcome = Accepted(q: Query) | LexError(pos: nat) | ParseError(at: Token)

  // What Parse returns for an input text.
  ghost predicate Parses(input: string, r: ParseOutcome) {
    match LexAt(input, 0)
    case LexErr(pos) => r == LexError(pos)
    case LexOk(toks) =>
      && toks != []
      && match ParseTokens(Body(toks))
         case Parsed(q, _) => r == Accepted(q)
         case Failed(at) => |at| < |toks| && r == ParseError(toks[|toks| - 1 - |at|])
  }

  method Parse(input: string) returns (r: ParseOutcome)
    ensures Parses(input, r)
  {
    hide LexAt, PQuery;
    var lexed := Lex(input);
    if lexed.LexErr? {
      return LexError(lexed.pos);
    }
    LexCloses(input, 0);
    var p := new Parser(lexed.toks);
    var q := p.ParseQuery();
    if q.Error? {
      return ParseError(q.at);
    }
    var t := p.PeekToken();
    if t.tok.kind != TokEOF {
      return ParseError(t);
    }
    return Accepted(q.value);
  }
}
