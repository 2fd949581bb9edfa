// Suggestions never lead the user astray: after any token prefix that can
// still become a query, every suggested token keeps that possibility open.

module AutocompleteProps {
  import opened Options
  import opened NetqlTypes
  import opened Lexer
  import opened LexerProps
  import opened ParserSpec
  import opened MetricRegistry
  import opened TypeCheck
  import opened Automaton
  import opened Autocomplete
  import opened RoundTrip
  import opened Parser

  // Registered names can be typed: they lex to one identifier each.
  predicate Typeable(metrics: Metrics) {
    forall n <- metrics ::
      && IsName(metrics[n].name)
      && (forall f <- metrics[n].groupBy :: IsName(f))
      && (forall f <- metrics[n].filter :: IsName(f))
  }

  // The token a suggested text lexes to.
  function TokenFor(text: string): Tok {
    match ScanToken(text + " ")
    case Found(t, _) => t
    case Bad => EOF
  }

  lemma NameToken(s: string)
    requires IsName(s)
    ensures TokenFor(s) == Tok(TokIdent, s)
  {
    SpellingScans(s, NameTok(s), " ");
  }

  lemma KeywordToken(w: string)
    requires w in KEYWORDS
    ensures TokenFor(w) == Kw(w)
  {
    KeywordSpelled(w);
    SpellingScans(w, Kw(w), " ");
  }

  // ---- The last tokens of a viable prefix tell the machine's state ----

  // State before the last token, and the move on it.
  lemma LastMove(ts: seq<Tok>)
    requires ts != [] && Run(NeedMetric, ts).Some?
    ensures var s := Run(NeedMetric, ts[..|ts| - 1]);
            s.Some? && Step(s.value, ts[|ts| - 1]) == Run(NeedMetric, ts)
  {
    hide Step;
    var k := |ts| - 1;
    RunAppend(NeedMetric, ts[..k], [ts[k]]);
    assert ts == ts[..k] + [ts[k]];
  }

  lemma MoveOn(ts: seq<Tok>, t: Tok)
    ensures Run(NeedMetric, ts + [t]) ==
            if Run(NeedMetric, ts) == None then None else Step(Run(NeedMetric, ts).value, t)
  {
    hide Step;
    RunAppend(NeedMetric, ts, [t]);
  }

  lemma NextToLast(ts: seq<Tok>) returns (s: State)
    requires |ts| >= 2 && Run(NeedMetric, ts).Some?
    ensures Run(NeedMetric, ts[..|ts| - 1]) == Some(s)
    ensures Run(NeedMetric, ts[..|ts| - 2]).Some?
    ensures Step(Run(NeedMetric, ts[..|ts| - 2]).value, ts[|ts| - 2]) == Some(s)
    ensures Step(s, ts[|ts| - 1]) == Run(NeedMetric, ts)
  {
    hide Step;
    var k := |ts| - 1;
    LastMove(ts);
    LastMove(ts[..k]);
    assert ts[..k][..k - 1] == ts[..k - 1];
    s := Run(NeedMetric, ts[..k]).value;
  }

  predicate Grouping(s: State) {
    s.NeedGroupIdent? || s.AfterGroupIdent?
  }

  // `order` is the only way to the state that waits for its `by`.
  lemma OnlyOrder(s: State, t: Tok)
    requires Step(s, t) == Some(NeedBy)
    ensures t == Kw("order")
  {
  }

  // How a move changes whether a group-by list is being read.
  lemma GroupingMoves(s: State, t: Tok)
    requires Step(s, t).Some?
    ensures IsKw(t, {"where", "over", "step", "order", "limit"}) ==> !Grouping(Step(s, t).value)
    ensures IsKw(t, {"by"}) ==> (s == Clauses(0) && Grouping(Step(s, t).value)) || (s == NeedBy && !Grouping(Step(s, t).value))
    ensures !IsKw(t, {"where", "over", "step", "order", "limit", "by"}) ==> Grouping(Step(s, t).value) == Grouping(s)
  {
  }

  // The backward scan finds out exactly whether a group-by list is open.
  lemma {:induction false} ScanIsExact(ts: seq<Tok>)
    requires Run(NeedMetric, ts).Some?
    ensures InGroupByList(ts) <==> Grouping(Run(NeedMetric, ts).value)
    decreases |ts|
  {
    hide Step;
    if ts != [] {
      var k := |ts| - 1;
      var t := ts[k];
      LastMove(ts);
      var s := Run(NeedMetric, ts[..k]).value;
      GroupingMoves(s, t);
      if IsKw(t, {"by"}) {
        OrderByIsExact(ts);
        AfterClauses0(s);
      } else if !IsKw(t, {"where", "over", "step", "order", "limit"}) {
        ScanIsExact(ts[..k]);
      }
    }
  }

  lemma AfterClauses0(s: State)
    ensures s == Clauses(0) ==> Step(s, Kw("by")) == Some(NeedGroupIdent)
    ensures s == NeedBy ==> Step(s, Kw("by")) == Some(NeedOrderIdent)
  {
  }

  // `by` is taken for an ordering exactly if the machine waits for one.
  lemma OrderByIsExact(ts: seq<Tok>)
    requires ts != [] && Run(NeedMetric, ts).Some? && IsKw(ts[|ts| - 1], {"by"})
    ensures IsOrderBy(ts) <==> Run(NeedMetric, ts).value == NeedOrderIdent
    ensures !IsOrderBy(ts) <==> Run(NeedMetric, ts).value == NeedGroupIdent
  {
    hide Step;
    var k := |ts| - 1;
    LastMove(ts);
    var s := Run(NeedMetric, ts[..k]).value;
    ByMove(s);
    if k > 0 {
      var s' := NextToLast(ts);
      var r := Run(NeedMetric, ts[..|ts| - 2]).value;
      if s' == NeedBy {
        OnlyOrder(r, ts[k - 1]);
      } else {
        NotAfterOrder(r, ts[k - 1]);
      }
    }
  }

  lemma ByMove(s: State)
    requires Step(s, Kw("by")).Some?
    ensures (s == Clauses(0) && Step(s, Kw("by")) == Some(NeedGroupIdent)) || (s == NeedBy && Step(s, Kw("by")) == Some(NeedOrderIdent))
  {
  }

  lemma NotAfterOrder(s: State, t: Tok)
    requires Step(s, t).Some? && Step(s, t).value != NeedBy
    ensures t != Kw("order")
  {
  }

  // ---- Every suggestion has a move ----

  // Behind `where`, `and`, `or` or `not`, an identifier starts a predicate.
  lemma OperatorState(ts: seq<Tok>)
    requires |ts| >= 2 && Run(NeedMetric, ts).Some?
    requires ts[|ts| - 1].kind == TokIdent && IsKw(ts[|ts| - 2], {"where", "and", "or", "not"})
    ensures Run(NeedMetric, ts).value.NeedOp?
  {
    hide Step;
    var s := NextToLast(ts);
    BehindConnective(Run(NeedMetric, ts[..|ts| - 2]).value, ts[|ts| - 2]);
    NameMove(s, ts[|ts| - 1]);
  }

  lemma NameMove(s: State, t: Tok)
    requires (s.NeedUnary? || s.NeedTerm?) && t.kind == TokIdent
    ensures Step(s, t) == Some(NeedOp(s.d))
  {
  }

  lemma BehindConnective(s: State, t: Tok)
    requires Step(s, t).Some? && IsKw(t, {"where", "and", "or", "not"})
    ensures Step(s, t).value.NeedUnary? || Step(s, t).value.NeedTerm?
  {
  }

  lemma BehindOrder(s: State, t: Tok)
    requires Step(s, t).Some? && t == Kw("order")
    ensures Step(s, t).value == NeedBy
  {
  }

  lemma BehindDirection(s: State, t: Tok)
    requires Step(s, t).Some? && (t == Kw("asc") || t == Kw("desc"))
    ensures Step(s, t).value == Clauses(5)
  {
  }

  lemma BehindComma(s: State, t: Tok)
    requires Step(s, t).Some? && t.kind == TokComma
    ensures Step(s, t).value == NeedGroupIdent || Step(s, t).value.NeedItem?
  {
  }

  // The state a prefix leaves the machine in can read any identifier.
  predicate ReadsNames(s: State) {
    s.NeedGroupIdent? || s.NeedOrderIdent? || s.NeedUnary? || s.NeedTerm?
  }

  lemma NamesMove(s: State, x: string)
    requires ReadsNames(s)
    ensures Step(s, Tok(TokIdent, x)).Some?
  {
  }

  lemma OfferedNames(ts: seq<Tok>, spec: MetricSpec)
    requires ts != [] && Run(NeedMetric, ts).Some?
    requires var o := OfferBehind(ts, spec); o.GroupFields? || o.OrderFields? || o.FilterFields?
    ensures ReadsNames(Run(NeedMetric, ts).value)
  {
    hide Step;
    var t := ts[|ts| - 1];
    LastMove(ts);
    var s := Run(NeedMetric, ts[..|ts| - 1]).value;
    if IsKw(t, {"by"}) {
      OrderByIsExact(ts);
    } else if t.kind == TokComma {
      ScanIsExact(ts);
      BehindComma(s, t);
    } else {
      BehindConnective(s, t);
    }
  }

  lemma OperatorMoves(s: State, x: string)
    requires s.NeedOp? && x in OPERATORS
    ensures Step(s, TokenFor(x)).Some?
  {
    if x in KEYWORDS {
      KeywordToken(x);
    } else {
      PunctuationToken(x);
    }
  }

  lemma PunctuationToken(x: string)
    requires x in {"=", "!=", "<", "<=", ">", ">="}
    ensures OpOf(TokenFor(x)).Some? && OpOf(TokenFor(x)) != Some(OpIn)
  {
    assert (x + " ")[0] == x[0];
    assert |x| == 1 ==> (x + " ")[1] == ' ';
  }

  lemma ClauseMoves(x: string)
    requires x in CLAUSE_WORDS
    ensures Step(Clauses(0), TokenFor(x)).Some?
  {
    KeywordToken(x);
  }

  lemma SuggestedMoves(ts: seq<Tok>, spec: MetricSpec, x: string, metrics: Metrics)
    requires ts != [] && Run(NeedMetric, ts).Some?
    requires IsName(spec.name) && (forall f <- spec.groupBy :: IsName(f)) && (forall f <- spec.filter :: IsName(f))
    requires x in Texts(OfferBehind(ts, spec), metrics)
    ensures Step(Run(NeedMetric, ts).value, TokenFor(x)).Some?
  {
    hide Step, TokenFor, IsName;
    var s := Run(NeedMetric, ts).value;
    var o := OfferBehind(ts, spec);
    match o
    case Operators =>
      OperatorState(ts);
      OperatorMoves(s, x);
    case Word(w) =>
      LastMove(ts);
      if IsKw(ts[|ts| - 1], {"order"}) {
        BehindOrder(Run(NeedMetric, ts[..|ts| - 1]).value, ts[|ts| - 1]);
      } else {
        BehindDirection(Run(NeedMetric, ts[..|ts| - 1]).value, ts[|ts| - 1]);
      }
      WordMoves(s, w);
    case _ =>
      OfferedNames(ts, spec);
      NameToken(x);
      NamesMove(s, x);
  }

  lemma WordMoves(s: State, w: string)
    requires (s == NeedBy && w == "by") || (s == Clauses(5) && w == "limit")
    ensures Step(s, TokenFor(w)).Some?
  {
    KeywordToken(w);
  }

  // Behind two or more tokens, or behind one identifier and a space, every
  // suggested token can be continued to a query if the prefix could.
  lemma SuggestionsStayViable(ts: seq<Tok>, spaced: bool, metrics: Metrics, x: string)
    requires Typeable(metrics) && Viable(ts)
    requires |ts| >= 2 || (|ts| == 1 && spaced)
    requires x in Texts(OfferFor(ts, spaced, metrics), metrics)
    ensures Viable(ts + [TokenFor(x)])
  {
    hide Step, TokenFor, IsName, OfferBehind;
    ViableIffRuns(ts);
    ViableIffRuns(ts + [TokenFor(x)]);
    MoveOn(ts, TokenFor(x));
    if |ts| == 1 {
      OneToken(ts);
      ClauseMoves(x);
    } else {
      SuggestedMoves(ts, metrics[ts[0].value], x, metrics);
    }
  }

  lemma OneToken(ts: seq<Tok>)
    requires |ts| == 1 && Run(NeedMetric, ts).Some?
    ensures Run(NeedMetric, ts) == Some(Clauses(0)) && ts[0].kind == TokIdent
  {
  }

  // ---- What is offered also passes the checker's lists ----

  // Fields offered behind a group-by `by` or comma are groupable, and those
  // offered behind `where`, `and` and `or` are filterable, for the metric the
  // query starts with.
  lemma OfferedFieldsAreListed(ts: seq<Tok>, spaced: bool, metrics: Metrics, x: string)
    requires ts != [] && ts[0].value in metrics
    requires x in Texts(OfferFor(ts, spaced, metrics), metrics)
    ensures var o := OfferFor(ts, spaced, metrics);
            && (o.GroupFields? ==> CheckGroupBy([x], metrics[ts[0].value]) == None)
            && (o.FilterFields? ==> x in metrics[ts[0].value].filter)
  {
  }

  // Behind `order by` this can fail: the offer lists every groupable field,
  // but the checker wants the metric itself or a field the query groups by.
  // For every metric with a groupable field g of another name, the suggested
  // `metric order by g` is a query, and the checker rejects it.
  lemma OrderOfferCanBeRejected(metrics: Metrics, m: string, g: string)
    requires m in metrics && g in metrics[m].groupBy && g != m
    ensures var ts := [Tok(TokIdent, m), Kw("order"), Kw("by")];
            && g in Texts(OfferFor(ts, true, metrics), metrics)
            && ParseTokens(ts + [Tok(TokIdent, g)]) ==
               Parsed(Query(m, [], None, None, None, Some(OrderBy(g, DirAsc)), None), [])
            && Check(ParseTokens(ts + [Tok(TokIdent, g)]).val, metrics) == Some(BadOrder(g))
  {
    var id := Tok(TokIdent, g);
    var ts := [Tok(TokIdent, m), Kw("order"), Kw("by"), id];
    assert [Tok(TokIdent, m), Kw("order"), Kw("by")] + [id] == ts;
    var r := [Kw("order"), Kw("by"), id];
    assert ts[1..] == r;
    OrderClauseParses(id);
  }

  lemma OrderClauseParses(id: Tok)
    requires id.kind == TokIdent
    ensures POrderClause([Kw("order"), Kw("by"), id]) == Parsed(OrderBy(id.value, DirAsc), [])
  {
    var r := [Kw("order"), Kw("by"), id];
    assert r[1..] == [Kw("by"), id] && [Kw("by"), id][1..] == [id] && [id][1..] == [];
  }
}
