// Which of the fields offered behind `order by` the checker accepts. The
// completer offers every groupable field and the metric; the checker wants the
// metric or a field the query groups by.

module OrderOffers {
  import opened Options
  import opened NetqlTypes
  import opened ParserSpec
  import opened MetricRegistry
  import opened TypeCheck
  import opened Automaton
  import C = Autocomplete
  import P = AutocompleteProps

  // ---- Where a parsed expression ends ----

  // What is left is the end of ts.
  predicate Tail(rest: seq<Tok>, ts: seq<Tok>) {
    |rest| <= |ts| && rest == ts[|ts| - |rest|..]
  }

  // Something was read, and the last token of it is no word.
  predicate ReadsValue(rest: seq<Tok>, ts: seq<Tok>) {
    |rest| < |ts| && Tail(rest, ts) && ts[|ts| - |rest| - 1].kind !in {TokIdent, TokKeyword}
  }

  lemma TailOfTail(rest: seq<Tok>, mid: seq<Tok>, ts: seq<Tok>)
    requires Tail(rest, mid) && Tail(mid, ts)
    ensures Tail(rest, ts)
    ensures ReadsValue(rest, mid) ==> ReadsValue(rest, ts)
  {
  }

  lemma OneTail(ts: seq<Tok>)
    requires ts != []
    ensures Tail(ts[1..], ts) && (ts[0].kind !in {TokIdent, TokKeyword} ==> ReadsValue(ts[1..], ts))
  {
  }

  lemma {:induction false} ListTail<T>(ts: seq<Tok>, item: Tok -> Option<T>)
    requires PList(ts, item).Parsed?
    ensures Tail(PList(ts, item).rest, ts)
    decreases |ts|
  {
    hide Tail;
    var rest := POne(ts, item).rest;
    OneTail(ts);
    if Peek(rest).kind == TokComma {
      OneTail(rest);
      ListTail(rest[1..], item);
      TailOfTail(rest[1..], rest, ts);
      TailOfTail(PList(ts, item).rest, rest[1..], ts);
    }
  }

  lemma ValueListReads(ts: seq<Tok>)
    requires PValueList(ts).Parsed?
    ensures ReadsValue(PValueList(ts).rest, ts)
  {
    hide Tail, ReadsValue, PList;
    OneTail(ts);
    var rest := ts[1..];
    if Peek(rest).kind == TokString {
      CloseReads(PList(rest, StringItem).rest, ts, rest, StringItem);
    } else {
      CloseReads(PList(rest, NumberItem).rest, ts, rest, NumberItem);
    }
  }

  lemma CloseReads<T>(rest: seq<Tok>, ts: seq<Tok>, mid: seq<Tok>, item: Tok -> Option<T>)
    requires PList(mid, item).Parsed? && rest == PList(mid, item).rest && Tail(mid, ts)
    requires rest != [] && rest[0].kind == TokRParen
    ensures ReadsValue(rest[1..], ts)
  {
    hide PList;
    ListTail(mid, item);
    TailOfTail(rest, mid, ts);
    OneTail(rest);
    TailOfTail(rest[1..], rest, ts);
  }

  lemma ReadIsTail(rest: seq<Tok>, ts: seq<Tok>)
    requires ReadsValue(rest, ts)
    ensures Tail(rest, ts)
  {
  }

  lemma PredicateReads(ts: seq<Tok>)
    requires PPredicate(ts).Parsed?
    ensures ReadsValue(PPredicate(ts).rest, ts)
  {
    hide Tail, ReadsValue, PValueList;
    var r1 := ts[1..];
    OneTail(ts);
    OneTail(r1);
    var r2 := r1[1..];
    TailOfTail(r2, r1, ts);
    if OpOf(r1[0]) == Some(OpIn) {
      ValueListReads(r2);
      ReadIsTail(PValueList(r2).rest, r2);
    } else {
      OneTail(r2);
    }
    TailOfTail(PPredicate(ts).rest, r2, ts);
  }

  lemma {:induction false} TermReads(ts: seq<Tok>)
    requires PTerm(ts).Parsed?
    ensures ReadsValue(PTerm(ts).rest, ts)
    decreases |ts|, 0
  {
    hide Tail, ReadsValue, PPredicate, POrs;
    if Peek(ts).kind == TokLParen {
      OneTail(ts);
      OrsRead(ts[1..]);
      var rest := POrs(ts[1..]).rest;
      ReadIsTail(rest, ts[1..]);
      TailOfTail(rest, ts[1..], ts);
      OneTail(rest);
      TailOfTail(rest[1..], rest, ts);
    } else {
      PredicateReads(ts);
    }
  }

  lemma {:induction false} AndsRead(ts: seq<Tok>)
    requires PAnds(ts).Parsed?
    ensures ReadsValue(PAnds(ts).rest, ts)
    decreases |ts|, 2
  {
    hide Tail, ReadsValue, PTerm;
    var first := ts;
    if NextIs(ts, "not") {
      OneTail(ts);
      TermReads(ts[1..]);
      TailOfTail(PTerm(ts[1..]).rest, ts[1..], ts) by { ReadIsTail(PTerm(ts[1..]).rest, ts[1..]); }
    } else {
      TermReads(ts);
    }
    var rest := PUnary(ts).rest;
    if NextIs(rest, "and") {
      ReadIsTail(rest, ts);
      OneTail(rest);
      TailOfTail(rest[1..], rest, ts);
      AndsRead(rest[1..]);
      ReadIsTail(PAnds(rest[1..]).rest, rest[1..]);
      TailOfTail(PAnds(ts).rest, rest[1..], ts);
    }
  }

  lemma {:induction false} OrsRead(ts: seq<Tok>)
    requires POrs(ts).Parsed?
    ensures ReadsValue(POrs(ts).rest, ts)
    decreases |ts|, 4
  {
    hide Tail, ReadsValue, PAnds;
    AndsRead(ts);
    var rest := PAndExpr(ts).rest;
    if NextIs(rest, "or") {
      ReadIsTail(rest, ts);
      OneTail(rest);
      TailOfTail(rest[1..], rest, ts);
      OrsRead(rest[1..]);
      ReadIsTail(POrs(rest[1..]).rest, rest[1..]);
      TailOfTail(POrs(ts).rest, rest[1..], ts);
    }
  }

  // ---- A query that ends in `order by` and a name ----

  // The names listed from here on.
  function ListedNames(ts: seq<Tok>): seq<string> {
    if ts == [] || ts[0].kind != TokIdent then []
    else [ts[0].value] + if |ts| > 1 && ts[1].kind == TokComma then ListedNames(ts[2..]) else []
  }

  // The names a query that begins with ts groups by.
  function GroupedBy(ts: seq<Tok>): seq<string> {
    if |ts| > 1 && ts[1] == Kw("by") then ListedNames(ts[2..]) else []
  }

  predicate EndsInOrderBy(ts: seq<Tok>) {
    |ts| >= 2 && ts[|ts| - 2] == Kw("order") && ts[|ts| - 1] == Kw("by")
  }

  predicate EndsInOrder(ts: seq<Tok>, x: string) {
    && |ts| >= 3 && ts[|ts| - 3] == Kw("order") && ts[|ts| - 2] == Kw("by")
    && ts[|ts| - 1] == Tok(TokIdent, x)
  }

  lemma {:induction false} ListIsListed(ts: seq<Tok>)
    requires PList(ts, IdentItem).Parsed?
    ensures PList(ts, IdentItem).val == ListedNames(ts)
    decreases |ts|
  {
    if |ts| > 1 && ts[1].kind == TokComma {
      ListIsListed(ts[2..]);
      assert ts[1..][1..] == ts[2..];
    }
  }

  // A list of names reads names and commas only.
  lemma {:induction false} ListReads(ts: seq<Tok>, i: nat)
    requires PList(ts, IdentItem).Parsed? && i < |ts| - |PList(ts, IdentItem).rest|
    ensures ts[i].kind == TokIdent || ts[i].kind == TokComma
    decreases |ts|
  {
    if i >= 2 {
      ListReads(ts[2..], i - 2);
      assert ts[1..][1..] == ts[2..];
    }
  }

  // Another token behind a keyword does not lengthen the list.
  lemma {:induction false} ListedStops(ts: seq<Tok>, t: Tok)
    requires ts != [] && ts[|ts| - 1].kind == TokKeyword
    ensures ListedNames(ts + [t]) == ListedNames(ts)
    decreases |ts|
  {
    if ts[0].kind == TokIdent && ts[1].kind == TokComma {
      ListedStops(ts[2..], t);
      assert (ts + [t])[2..] == ts[2..] + [t];
    }
  }

  lemma GroupedStops(ts: seq<Tok>, t: Tok)
    requires EndsInOrderBy(ts) && |ts| >= 3
    ensures GroupedBy(ts + [t]) == GroupedBy(ts)
  {
    if ts[1] == Kw("by") {
      ListedStops(ts[2..], t);
      assert (ts + [t])[2..] == ts[2..] + [t];
    }
  }

  // In a tail that keeps the ending, the last clause is the ordering.
  lemma TrailerOrders(ts: seq<Tok>, q: Query, x: string)
    requires EndsInOrder(ts, x) && PTrailer(ts, q).Parsed? && PTrailer(ts, q).rest == []
    ensures PTrailer(ts, q).val.orderBy == Some(OrderBy(x, DirAsc)) && PTrailer(ts, q).val.limit == None
  {
    hide PWindow, POrderBy, PLimit;
    var r1 := PWindow(ts, "over").rest;
    WindowKeeps(ts, "over", x);
    var r2 := PWindow(r1, "step").rest;
    WindowKeeps(r1, "step", x);
    OrderKeeps(r2, x);
    LimitKeeps(POrderBy(r2).rest);
  }

  lemma WindowKeeps(ts: seq<Tok>, w: string, x: string)
    requires EndsInOrder(ts, x) && PWindow(ts, w).Parsed?
    ensures EndsInOrder(PWindow(ts, w).rest, x)
  {
    if NextIs(ts, w) {
      assert ts[1..][1..] == ts[2..];
      assert ts[1].kind == TokDuration;
      assert ts[|ts| - 1].kind == TokIdent && ts[|ts| - 2].kind == TokKeyword && ts[|ts| - 3].kind == TokKeyword;
      assert |ts| >= 5;
    }
  }

  lemma OrderKeeps(ts: seq<Tok>, x: string)
    requires EndsInOrder(ts, x) && POrderBy(ts).Parsed?
    ensures var rest := POrderBy(ts).rest;
            (rest == [] && POrderBy(ts).val == Some(OrderBy(x, DirAsc))) || (rest != [] && rest[|rest| - 1].kind == TokIdent)
  {
    if NextIs(ts, "order") {
      var r := ts[1..][1..][1..];
      assert r == ts[3..] && ts[1..][1..][0] == ts[2];
    }
  }

  lemma LimitKeeps(ts: seq<Tok>)
    requires PLimit(ts).Parsed? && PLimit(ts).rest == []
    requires ts != [] ==> ts[|ts| - 1].kind == TokIdent
    ensures ts == [] && PLimit(ts).val == None
  {
  }

  // The group list cannot run into the ending, and a filter cannot end in it.
  lemma GroupKeeps(ts: seq<Tok>, x: string)
    requires EndsInOrder(ts, x) && PGroupBy(ts).Parsed?
    ensures EndsInOrder(PGroupBy(ts).rest, x)
  {
    hide PList;
    var rest := PGroupBy(ts).rest;
    GroupTail(ts);
    if NextIs(ts, "by") && |rest| < 3 {
      assert ts[1..][|ts| - 4] == Kw("order");
      ListReads(ts[1..], |ts| - 4);
    }
  }

  lemma FilterKeeps(ts: seq<Tok>, x: string)
    requires EndsInOrder(ts, x) && PFilter(ts).Parsed?
    ensures EndsInOrder(PFilter(ts).rest, x)
  {
    hide PExpr;
    FilterTail(ts);
  }

  lemma GroupTail(ts: seq<Tok>)
    requires PGroupBy(ts).Parsed?
    ensures Tail(PGroupBy(ts).rest, ts)
  {
    hide PList;
    if NextIs(ts, "by") {
      ListTail(ts[1..], IdentItem);
      OneTail(ts);
      TailOfTail(PGroupBy(ts).rest, ts[1..], ts);
    }
  }

  lemma FilterTail(ts: seq<Tok>)
    requires PFilter(ts).Parsed?
    ensures Tail(PFilter(ts).rest, ts) && (PFilter(ts).rest == ts || ReadsValue(PFilter(ts).rest, ts))
  {
    hide POrs;
    if NextIs(ts, "where") {
      OrsRead(ts[1..]);
      OneTail(ts);
      TailOfTail(PFilter(ts).rest, ts[1..], ts);
    }
  }

  lemma QueryOrders(ts: seq<Tok>, x: string)
    requires EndsInOrder(ts, x) && PQuery(ts).Parsed? && PQuery(ts).rest == []
    ensures var q := PQuery(ts).val;
            q.metric == ts[0].value && q.groupBy == GroupedBy(ts) && q.orderBy == Some(OrderBy(x, DirAsc)) && q.limit == None
  {
    hide PFilter, PTrailer, PList;
    var r0 := ts[1..];
    assert EndsInOrder(r0, x);
    GroupKeeps(r0, x);
    var r1 := PGroupBy(r0).rest;
    FilterKeeps(r1, x);
    var r2 := PFilter(r1).rest;
    var q := Query(ts[0].value, PGroupBy(r0).val, PFilter(r1).val, None, None, None, None);
    TrailerOrders(r2, q, x);
    TrailerKeepsFront(r2, q);
    if NextIs(r0, "by") {
      ListIsListed(r0[1..]);
      assert r0[1..] == ts[2..];
    }
  }

  lemma TrailerKeepsFront(ts: seq<Tok>, q: Query)
    requires PTrailer(ts, q).Parsed?
    ensures PTrailer(ts, q).val.metric == q.metric && PTrailer(ts, q).val.groupBy == q.groupBy
  {
  }

  // ---- Offers behind `order by` ----

  // The checker's rule for the ordering alone.
  predicate OrderPasses(q: Query) {
    q.orderBy.Some? ==> q.orderBy.value.field == q.metric || q.orderBy.value.field in q.groupBy
  }

  // Continued by the token for x, ts is a query whose ordering passes.
  predicate OfferPasses(ts: seq<Tok>, x: string) {
    var r := ParseTokens(ts + [P.TokenFor(x)]);
    r.Parsed? && OrderPasses(r.val)
  }

  lemma OrderDecides(q: Query, metrics: Metrics)
    requires q.limit == None
    ensures Check(q, metrics) == None <==> Check(q.(orderBy := None), metrics) == None && OrderPasses(q)
  {
    CheckIff(q, metrics);
    CheckIff(q.(orderBy := None), metrics);
  }

  lemma OfferBehindOrderBy(ts: seq<Tok>, spaced: bool, metrics: Metrics)
    requires EndsInOrderBy(ts) && ts[0].kind == TokIdent && ts[0].value in metrics
    ensures C.OfferFor(ts, spaced, metrics) == C.OrderFields(metrics[ts[0].value])
  {
  }

  // A viable prefix that ends in `order by`, continued by an offered field, is
  // a query of the prefix's metric and groups, ordered by that field.
  lemma OfferIsQuery(ts: seq<Tok>, spaced: bool, metrics: Metrics, x: string)
    requires P.Typeable(metrics) && Viable(ts) && EndsInOrderBy(ts)
    requires x in C.Texts(C.OfferFor(ts, spaced, metrics), metrics)
    ensures var r := ParseTokens(ts + [P.TokenFor(x)]);
            && r.Parsed?
            && r.val.metric == ts[0].value && r.val.groupBy == GroupedBy(ts)
            && r.val.orderBy == Some(OrderBy(x, DirAsc)) && r.val.limit == None
  {
    hide Step, PQuery, P.TokenFor;
    var t := Tok(TokIdent, x);
    ViableIffRuns(ts);
    StartsWithName(ts);
    OfferBehindOrderBy(ts, spaced, metrics);
    P.NameToken(x);
    P.OrderByIsExact(ts);
    P.MoveOn(ts, t);
    OrderNameAccepts(t);
    AcceptsIffRuns(ts + [t]);
    QueryOrders(ts + [t], x);
    GroupedStops(ts, t);
  }

  lemma OrderNameAccepts(t: Tok)
    requires t.kind == TokIdent
    ensures Step(NeedOrderIdent, t) == Some(AfterOrderIdent) && Accepting(AfterOrderIdent)
  {
  }

  lemma StartsWithName(ts: seq<Tok>)
    requires |ts| >= 2 && EndsInOrderBy(ts) && Run(NeedMetric, ts).Some?
    ensures ts[0].kind == TokIdent && |ts| >= 3
  {
  }

  // The offered field x passes the checker exactly if it is the metric or one
  // of the names the prefix groups by: with it the query is accepted if and
  // only if it would be without an ordering and x is one of these.
  lemma OrderOfferPassesIff(ts: seq<Tok>, spaced: bool, metrics: Metrics, x: string)
    requires P.Typeable(metrics) && Viable(ts) && EndsInOrderBy(ts)
    requires x in C.Texts(C.OfferFor(ts, spaced, metrics), metrics)
    ensures var r := ParseTokens(ts + [P.TokenFor(x)]);
            && r.Parsed?
            && (OfferPasses(ts, x) <==> x == ts[0].value || x in GroupedBy(ts))
            && (Check(r.val, metrics) == None <==>
                Check(r.val.(orderBy := None), metrics) == None && (x == ts[0].value || x in GroupedBy(ts)))
  {
    hide ParseTokens, C.OfferFor, Viable, P.TokenFor, Check;
    OfferIsQuery(ts, spaced, metrics, x);
    OrderDecides(ParseTokens(ts + [P.TokenFor(x)]).val, metrics);
  }

  // So everything offered passes exactly if the metric has no groupable field
  // besides itself and the names the prefix groups by.
  lemma AllOrderOffersPassIff(ts: seq<Tok>, spaced: bool, metrics: Metrics)
    requires P.Typeable(metrics) && Viable(ts) && EndsInOrderBy(ts) && ts[0].value in metrics
    ensures (forall x <- C.Texts(C.OfferFor(ts, spaced, metrics), metrics) :: OfferPasses(ts, x))
       <==> metrics[ts[0].value].groupBy.Keys <= {ts[0].value} + set g <- GroupedBy(ts)
  {
    hide OfferPasses, Viable, GroupedBy, C.OfferFor;
    ViableIffRuns(ts);
    StartsWithName(ts);
    OfferBehindOrderBy(ts, spaced, metrics);
    forall x <- C.Texts(C.OfferFor(ts, spaced, metrics), metrics)
      ensures OfferPasses(ts, x) <==> x == ts[0].value || x in GroupedBy(ts)
    {
      OrderOfferPassesIff(ts, spaced, metrics, x);
    }
  }
}
