// What the completer offers in every context, in terms of the parser: the
// state a prefix leaves the machine in, and its last two tokens.

module Offered {
  import opened Options
  import opened Sorting
  import opened NetqlTypes
  import opened Lexer
  import opened LexerProps
  import opened ParserSpec
  import opened MetricRegistry
  import opened Automaton
  import C = Autocomplete
  import P = AutocompleteProps
  import Parser

  // ---- How the machine gets into its states ----

  lemma IntoGrouping(r: State, t: Tok)
    requires Step(r, t) == Some(NeedGroupIdent)
    ensures t == Kw("by") || t.kind == TokComma
  {
  }

  lemma IntoOrdering(r: State, t: Tok)
    requires Step(r, t) == Some(NeedOrderIdent) || Step(r, t) == Some(NeedBy)
    ensures Step(r, t) == Some(NeedOrderIdent) ==> t == Kw("by")
    ensures Step(r, t) == Some(NeedBy) ==> t == Kw("order")
  {
  }

  lemma IntoOperator(r: State, t: Tok)
    requires Step(r, t).Some? && Step(r, t).value.NeedOp?
    ensures t.kind == TokIdent
  {
  }

  lemma IntoLast(r: State, t: Tok)
    requires Step(r, t) == Some(Clauses(5))
    ensures t == Kw("asc") || t == Kw("desc")
  {
  }

  lemma BehindWhere(r: State, t: Tok)
    requires Step(r, t).Some? && (t == Kw("where") || t == Kw("and") || t == Kw("or"))
    ensures Step(r, t).value.NeedUnary?
  {
  }

  // ---- The contexts ----

  function Fields(names: set<string>): set<C.Suggestion> {
    set f <- names :: C.Suggestion(f, C.SuggestField)
  }

  function Metric(name: string): set<C.Suggestion> {
    {C.Suggestion(name, C.SuggestMetric)}
  }

  function Words(words: set<string>): set<C.Suggestion> {
    set w <- words :: C.Suggestion(w, C.SuggestKeyword)
  }

  function Signs(signs: set<string>): set<C.Suggestion> {
    set w <- signs :: C.Suggestion(w, C.SuggestOperator)
  }

  // Where a grouping name is due, the groupable fields; where an ordering name
  // is due, these and the metric; behind `where`, `and` and `or`, the
  // filterable fields; behind the name that starts a predicate there or behind
  // `not`, the nine operators; behind `order`, `by`; behind a direction,
  // `limit`; anywhere else, nothing. In particular nothing is offered behind
  // `not` and behind an opening parenthesis.
  function Due(s: State, prev: Tok, last: Tok, spec: MetricSpec): set<C.Suggestion> {
    if s == NeedGroupIdent then Fields(spec.groupBy.Keys)
    else if s == NeedOrderIdent then Fields(spec.groupBy.Keys) + Metric(spec.name)
    else if s.NeedUnary? && (last == Kw("where") || last == Kw("and") || last == Kw("or")) then Fields(spec.filter.Keys)
    else if s.NeedOp? && (prev == Kw("where") || prev == Kw("and") || prev == Kw("or") || prev == Kw("not")) then
      Signs({"=", "!=", "<", "<=", ">", ">=", "in", "contains", "matches"})
    else if s == NeedBy then Words({"by"})
    else if s == Clauses(5) then Words({"limit"})
    else {}
  }

  // Behind two or more tokens of a viable prefix of a known metric, exactly
  // what is due is offered.
  lemma OfferedIsDue(ts: seq<Tok>, spaced: bool, metrics: Metrics)
    requires |ts| >= 2 && Viable(ts) && ts[0].value in metrics
    ensures Run(NeedMetric, ts).Some?
    ensures C.Entries(C.OfferFor(ts, spaced, metrics), metrics)
         == Due(Run(NeedMetric, ts).value, ts[|ts| - 2], ts[|ts| - 1], metrics[ts[0].value])
  {
    hide Step, C.Entries, Due, Viable;
    ViableIffRuns(ts);
    var spec, prev, last := metrics[ts[0].value], ts[|ts| - 2], ts[|ts| - 1];
    var s := Run(NeedMetric, ts).value;
    P.LastMove(ts);
    var r := Run(NeedMetric, ts[..|ts| - 1]).value;
    FirstIsName(ts);
    Distinguish(r, last);
    if last == Kw("by") {
      P.OrderByIsExact(ts);
    } else if last.kind == TokComma {
      P.ScanIsExact(ts);
      P.BehindComma(r, last);
    } else if last == Kw("where") || last == Kw("and") || last == Kw("or") {
      BehindWhere(r, last);
    } else if last.kind == TokIdent && C.IsKw(prev, {"where", "and", "or", "not"}) {
      P.OperatorState(ts);
    } else if last == Kw("order") {
      P.BehindOrder(r, last);
    } else if last == Kw("asc") || last == Kw("desc") {
      P.BehindDirection(r, last);
    }
    EntriesAreDue(s, prev, last, spec, C.OfferBehind(ts, spec), metrics);
  }

  lemma FirstIsName(ts: seq<Tok>)
    requires ts != [] && Run(NeedMetric, ts).Some?
    ensures ts[0].kind == TokIdent
  {
  }

  lemma Distinguish(r: State, t: Tok)
    requires Step(r, t).Some?
    ensures var s := Step(r, t).value;
            && (s == NeedGroupIdent ==> t == Kw("by") || t.kind == TokComma)
            && (s == NeedOrderIdent ==> t == Kw("by"))
            && (s == NeedBy ==> t == Kw("order"))
            && (s.NeedOp? ==> t.kind == TokIdent)
            && (s == Clauses(5) ==> t == Kw("asc") || t == Kw("desc"))
  {
    hide Step;
    var s := Step(r, t).value;
    if s == NeedGroupIdent { IntoGrouping(r, t); }
    if s == NeedOrderIdent || s == NeedBy { IntoOrdering(r, t); }
    if s.NeedOp? { IntoOperator(r, t); }
    if s == Clauses(5) { IntoLast(r, t); }
  }

  // The offers, written as what is due.
  lemma EntriesAreDue(s: State, prev: Tok, last: Tok, spec: MetricSpec, o: C.Offer, metrics: Metrics)
    requires match o
             case GroupFields(sp) => sp == spec && s == NeedGroupIdent
             case OrderFields(sp) => sp == spec && s == NeedOrderIdent
             case FilterFields(sp) => sp == spec && s.NeedUnary? && (last == Kw("where") || last == Kw("and") || last == Kw("or"))
             case Operators => s.NeedOp? && (prev == Kw("where") || prev == Kw("and") || prev == Kw("or") || prev == Kw("not"))
             case Word(w) => (w == "by" && s == NeedBy) || (w == "limit" && s == Clauses(5))
             case Nothing =>
               && s != NeedGroupIdent && s != NeedOrderIdent && s != NeedBy && s != Clauses(5)
               && !(last == Kw("where") || last == Kw("and") || last == Kw("or"))
               && (s.NeedOp? ==> !(prev == Kw("where") || prev == Kw("and") || prev == Kw("or") || prev == Kw("not")))
             case _ => false
    ensures C.Entries(o, metrics) == Due(s, prev, last, spec)
  {
    OperatorWords();
  }

  lemma OperatorWords()
    ensures C.WordSet(C.OPERATORS) == {"=", "!=", "<", "<=", ">", ">=", "in", "contains", "matches"}
    ensures C.WordSet(C.CLAUSE_WORDS) == {"by", "where", "over", "step", "order", "limit"}
  {
  }

  // ---- Outside a query ----

  // The text before the cursor decides: what the input begins with, as far as
  // the cursor, an offset outside the input being moved to its nearer end.
  lemma CursorClamped(input: string, offset: int)
    ensures var p := C.Prefix(input, offset);
            && p <= input
            && |p| <= |input| && (offset < |p| ==> p == "") && (|p| < offset ==> p == input)
  {
  }

  // If the text does not lex, has no tokens, or is a name still being typed,
  // every metric; behind a single name and white space, the six clause words;
  // if the first token is not a known metric, nothing; and behind any other
  // text that can be continued, what is due there.
  lemma OfferedForText(prefix: string, metrics: Metrics)
    ensures var offered := C.Entries(C.OfferForText(prefix, metrics), metrics);
            var all := set m <- metrics :: C.Suggestion(m, C.SuggestMetric);
            match LexAt(prefix, 0)
            case LexErr(_) => offered == all
            case LexOk(toks) =>
              var ts := Parser.Body(toks);
              var spaced := prefix != "" && prefix[|prefix| - 1] in {' ', '\t', '\n'};
              if ts == [] then offered == all
              else if |ts| == 1 && ts[0].kind == TokIdent then
                offered == if spaced then Words({"by", "where", "over", "step", "order", "limit"}) else all
              else if ts[0].kind != TokIdent || ts[0].value !in metrics then offered == {}
              else
                Viable(ts) ==>
                && Run(NeedMetric, ts).Some?
                && offered == Due(Run(NeedMetric, ts).value, ts[|ts| - 2], ts[|ts| - 1], metrics[ts[0].value])
  {
    hide LexAt, C.OfferBehind, C.WordSet, Viable, Run, Due;
    OperatorWords();
    assert C.Tagged(metrics.Keys, C.SuggestMetric) == set m <- metrics :: C.Suggestion(m, C.SuggestMetric);
    var lexed := LexAt(prefix, 0);
    if lexed.LexOk? {
      Parser.LexCloses(prefix, 0);
      var ts := Parser.Body(lexed.toks);
      if |ts| >= 2 && ts[0].value in metrics && Viable(ts) {
        OfferedIsDue(ts, C.EndsWithSpace(prefix), metrics);
      }
    }
  }

  // ---- The order of the suggestions ----

  // Earlier texts come first, upper and lower case being the same.
  lemma OfferedInOrder(out: seq<C.Suggestion>, entries: set<C.Suggestion>, i: nat, j: nat)
    requires C.Offers(out, entries) && i < j < |out|
    ensures TextLeq(Folded(out[i].text), Folded(out[j].text))
  {
    LowerFolds(out[i].text);
    LowerFolds(out[j].text);
    assert C.SuggestionLeq(out[i], out[j]);
    TextOrder();
  }
}
