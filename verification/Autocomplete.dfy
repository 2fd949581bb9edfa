// The grammar-aware completer (pkg/netql/autocomplete.go).

module Autocomplete {
  import opened Options
  import opened Sorting
  import opened NetqlTypes
  import opened Lexer
  import opened LexerProps
  import opened MetricRegistry
  import opened Parser

  datatype SuggestionKind = SuggestMetric | SuggestKeyword | SuggestField | SuggestOperator

  datatype Suggestion = Suggestion(text: string, kind: SuggestionKind)

  // The contexts the completer tells apart.
  datatype Offer =
    | Nothing
    | AnyMetric
    | ClauseWords
    | GroupFields(spec: MetricSpec)
    | OrderFields(spec: MetricSpec)
    | FilterFields(spec: MetricSpec)
    | Operators
    | Word(w: string)

  const CLAUSE_WORDS := ["by", "where", "over", "step", "order", "limit"]
  const OPERATORS := ["=", "!=", "<", "<=", ">", ">=", "in", "contains", "matches"]

  predicate EndsWithSpace(s: string) {
    s != "" && (s[|s| - 1] == ' ' || s[|s| - 1] == '\t' || s[|s| - 1] == '\n')
  }

  predicate IsKw(t: Tok, ws: set<string>) {
    t.kind == TokKeyword && t.value in ws
  }

  // `by` right behind `order`.
  predicate IsOrderBy(ts: seq<Tok>) {
    |ts| >= 2 && IsKw(ts[|ts| - 1], {"by"}) && IsKw(ts[|ts| - 2], {"order"})
  }

  // Looking back, a group-by `by` comes before any other clause keyword.
  predicate InGroupByList(ts: seq<Tok>) {
    if ts == [] then false
    else
      var t := ts[|ts| - 1];
      if IsKw(t, {"where", "over", "step", "order", "limit"}) then false
      else if IsKw(t, {"by"}) then !IsOrderBy(ts)
      else InGroupByList(ts[..|ts| - 1])
  }

  // What is offered behind the tokens ts; `spaced` says whether white space
  // follows the last one.
  function OfferFor(ts: seq<Tok>, spaced: bool, metrics: Metrics): Offer {
    if ts == [] then AnyMetric
    else
      var last := ts[|ts| - 1];
      if |ts| == 1 && last.kind == TokIdent then (if spaced then ClauseWords else AnyMetric)
      else if ts[0].kind != TokIdent || ts[0].value !in metrics then Nothing
      else OfferBehind(ts, metrics[ts[0].value])
  }

  function OfferBehind(ts: seq<Tok>, spec: MetricSpec): Offer
    requires ts != []
  {
    var last := ts[|ts| - 1];
    var prev := if |ts| >= 2 then ts[|ts| - 2] else EOF;
    if IsKw(last, {"by"}) then (if IsOrderBy(ts) then OrderFields(spec) else GroupFields(spec))
    else if IsKw(last, {"where"}) then FilterFields(spec)
    else if last.kind == TokComma then (if InGroupByList(ts) then GroupFields(spec) else Nothing)
    else if last.kind == TokIdent && IsKw(prev, {"where"}) then Operators
    else if last.kind == TokIdent && IsKw(prev, {"and", "or", "not"}) then Operators
    else if IsKw(last, {"and", "or"}) then FilterFields(spec)
    else if IsKw(last, {"order"}) then Word("by")
    else if IsKw(last, {"asc", "desc"}) then Word("limit")
    else Nothing
  }

  function Tagged(names: set<string>, kind: SuggestionKind): set<Suggestion> {
    set n <- names :: Suggestion(n, kind)
  }

  function WordSet(words: seq<string>): set<string> {
    set w <- words
  }

  // What an offer consists of.
  function Entries(o: Offer, metrics: Metrics): set<Suggestion> {
    match o
    case Nothing => {}
    case AnyMetric => Tagged(metrics.Keys, SuggestMetric)
    case ClauseWords => Tagged(WordSet(CLAUSE_WORDS), SuggestKeyword)
    case GroupFields(spec) => Tagged(spec.groupBy.Keys, SuggestField)
    case OrderFields(spec) => Tagged(spec.groupBy.Keys, SuggestField) + {Suggestion(spec.name, SuggestMetric)}
    case FilterFields(spec) => Tagged(spec.filter.Keys, SuggestField)
    case Operators => Tagged(WordSet(OPERATORS), SuggestOperator)
    case Word(w) => {Suggestion(w, SuggestKeyword)}
  }

  // The texts of an offer.
  function Texts(o: Offer, metrics: Metrics): set<string> {
    match o
    case Nothing => {}
    case AnyMetric => metrics.Keys
    case ClauseWords => WordSet(CLAUSE_WORDS)
    case GroupFields(spec) => spec.groupBy.Keys
    case OrderFields(spec) => spec.groupBy.Keys + {spec.name}
    case FilterFields(spec) => spec.filter.Keys
    case Operators => WordSet(OPERATORS)
    case Word(w) => {w}
  }

  lemma EntryTexts(o: Offer, metrics: Metrics)
    ensures (set e <- Entries(o, metrics) :: e.text) == Texts(o, metrics)
  {
    hide WordSet;
    var entries := Entries(o, metrics);
    forall x ensures x in Texts(o, metrics) <==> exists e <- entries :: e.text == x {
      var kinds := [SuggestMetric, SuggestKeyword, SuggestField, SuggestOperator];
      if x in Texts(o, metrics) {
        assert exists k <- kinds :: Suggestion(x, k) in entries by {
          assert SuggestMetric in kinds && SuggestKeyword in kinds && SuggestField in kinds && SuggestOperator in kinds;
        }
      }
    }
  }

  // Case-insensitive order, ties broken by the text itself.
  predicate SuggestionLeq(a: Suggestion, b: Suggestion) {
    var (x, y) := (Lower(a.text), Lower(b.text));
    if x != y then TextLeq(x, y) else TextLeq(a.text, b.text)
  }

  lemma SuggestionOrder()
    ensures TotalOrder(SuggestionLeq)
  {
    TextOrder();
  }

  // Each entry once, in order.
  ghost predicate Offers(out: seq<Suggestion>, entries: set<Suggestion>) {
    multiset(out) == multiset(entries) && Sorted(out, SuggestionLeq)
  }

  lemma SmallOffers(e: Suggestion)
    ensures Offers([], {}) && Offers([e], {e})
  {
  }

  method SortByText(out: seq<Suggestion>) returns (r: seq<Suggestion>)
    ensures multiset(r) == multiset(out) && Sorted(r, SuggestionLeq)
  {
    SuggestionOrder();
    SortSorts(out, SuggestionLeq);
    r := Sort(out, SuggestionLeq);
  }

  lemma AddEntry(entries: set<Suggestion>, e: Suggestion)
    requires e !in entries
    ensures multiset(entries + {e}) == multiset(entries) + multiset{e}
  {
    forall x ensures multiset(entries + {e})[x] == (multiset(entries) + multiset{e})[x] {
    }
  }

  lemma TaggedMore(names: set<string>, n: string, kind: SuggestionKind)
    requires n !in names
    ensures multiset(Tagged(names + {n}, kind)) == multiset(Tagged(names, kind)) + multiset{Suggestion(n, kind)}
  {
    assert Tagged(names + {n}, kind) == Tagged(names, kind) + {Suggestion(n, kind)};
    AddEntry(Tagged(names, kind), Suggestion(n, kind));
  }

  // One suggestion per name, gathered from a map's keys in no fixed order.
  method Gather(names: set<string>, kind: SuggestionKind) returns (out: seq<Suggestion>)
    ensures multiset(out) == multiset(Tagged(names, kind))
  {
    hide Tagged;
    NothingTagged(kind);
    out := [];
    var rest := names;
    while rest != {}
      invariant rest <= names && multiset(out) == multiset(Tagged(names - rest, kind))
      decreases rest
    {
      var n :| n in rest;
      assert names - (rest - {n}) == (names - rest) + {n};
      TaggedMore(names - rest, n, kind);
      out := out + [Suggestion(n, kind)];
      rest := rest - {n};
    }
    assert names - rest == names;
  }

  lemma NothingTagged(kind: SuggestionKind)
    ensures multiset(Tagged({}, kind)) == multiset{} && WordSet([]) == {}
    ensures forall names: set<string> :: names - names == {}
  {
  }

  method GroupableFields(spec: MetricSpec) returns (out: seq<Suggestion>)
    ensures Offers(out, Entries(GroupFields(spec), map[]))
  {
    out := Gather(spec.groupBy.Keys, SuggestField);
    out := SortByText(out);
  }

  method GroupableFieldsPlusMetric(spec: MetricSpec) returns (out: seq<Suggestion>)
    ensures Offers(out, Entries(OrderFields(spec), map[]))
  {
    var metric := Suggestion(spec.name, SuggestMetric);
    AddEntry(Tagged(spec.groupBy.Keys, SuggestField), metric);
    out := GroupableFields(spec);
    out := out + [metric];
    out := SortByText(out);
  }

  method FilterableFields(spec: MetricSpec) returns (out: seq<Suggestion>)
    ensures Offers(out, Entries(FilterFields(spec), map[]))
  {
    out := Gather(spec.filter.Keys, SuggestField);
    out := SortByText(out);
  }

  method MetricSuggestions(metrics: Metrics) returns (out: seq<Suggestion>)
    ensures Offers(out, Entries(AnyMetric, metrics))
  {
    out := Gather(metrics.Keys, SuggestMetric);
    out := SortByText(out);
  }

  method FixedWords(words: seq<string>, kind: SuggestionKind) returns (out: seq<Suggestion>)
    requires forall i, j :: 0 <= i < j < |words| ==> words[i] != words[j]
    ensures Offers(out, Tagged(WordSet(words), kind))
  {
    hide Tagged, WordSet;
    NothingTagged(kind);
    out := [];
    for i := 0 to |words|
      invariant multiset(out) == multiset(Tagged(WordSet(words[..i]), kind))
    {
      OneWordMore(words, i);
      TaggedMore(WordSet(words[..i]), words[i], kind);
      out := out + [Suggestion(words[i], kind)];
    }
    assert words[..|words|] == words;
    out := SortByText(out);
  }

  lemma OneWordMore(words: seq<string>, i: nat)
    requires i < |words| && forall i, j :: 0 <= i < j < |words| ==> words[i] != words[j]
    ensures WordSet(words[..i + 1]) == WordSet(words[..i]) + {words[i]} && words[i] !in WordSet(words[..i])
  {
    assert words[..i + 1] == words[..i] + [words[i]];
  }

  method ScanGroupByList(ts: seq<Tok>) returns (found: bool)
    ensures found == InGroupByList(ts)
  {
    var i := |ts|;
    assert ts[..i] == ts;
    while i > 0
      invariant 0 <= i <= |ts|
      invariant InGroupByList(ts) == InGroupByList(ts[..i])
    {
      var t := ts[i - 1];
      assert ts[..i][|ts[..i]| - 1] == t && ts[..i][..i - 1] == ts[..i - 1];
      assert i >= 2 ==> ts[..i][i - 2] == ts[i - 2];
      if t.kind == TokKeyword {
        if t.value == "where" || t.value == "over" || t.value == "step" || t.value == "order" || t.value == "limit" {
          return false;
        } else if t.value == "by" {
          if i > 1 && ts[i - 2].kind == TokKeyword && ts[i - 2].value == "order" {
            return false;
          }
          return true;
        }
      }
      i := i - 1;
    }
    return false;
  }

  // The prefix of the input up to a clamped offset.
  function Prefix(input: string, offset: int): string {
    if offset < 0 then "" else if offset > |input| then input else input[..offset]
  }

  // What Autocomplete offers for a text: any metric if it does not lex.
  function OfferForText(prefix: string, metrics: Metrics): Offer {
    match LexAt(prefix, 0)
    case LexErr(_) => AnyMetric
    case LexOk(toks) => if toks == [] then AnyMetric else OfferFor(Body(toks), EndsWithSpace(prefix), metrics)
  }

  lemma NoMetricsBehind(ts: seq<Tok>, spec: MetricSpec, metrics: Metrics)
    requires ts != []
    ensures Entries(OfferBehind(ts, spec), metrics) == Entries(OfferBehind(ts, spec), map[])
  {
  }

  method Autocomplete(input: string, offset: int, metrics: Metrics) returns (out: seq<Suggestion>)
    ensures Offers(out, Entries(OfferForText(Prefix(input, offset), metrics), metrics))
  {
    hide OfferBehind, LexAt, EndsWithSpace;
    var prefix := if offset < 0 then "" else if offset > |input| then input else input[..offset];
    var lexed := Lex(prefix);
    if lexed.LexErr? {
      out := MetricSuggestions(metrics);
      return;
    }
    LexCloses(prefix, 0);
    var ts := Body(lexed.toks);
    if |ts| == 0 {
      out := MetricSuggestions(metrics);
      return;
    }
    var last := ts[|ts| - 1];
    if |ts| == 1 && last.kind == TokIdent {
      if !EndsWithSpace(prefix) {
        out := MetricSuggestions(metrics);
      } else {
        out := FixedWords(CLAUSE_WORDS, SuggestKeyword);
      }
      return;
    }
    if ts[0].kind != TokIdent || ts[0].value !in metrics {
      return [];
    }
    out := SuggestBehind(ts, metrics[ts[0].value]);
    NoMetricsBehind(ts, metrics[ts[0].value], metrics);
  }

  method SuggestBehind(ts: seq<Tok>, spec: MetricSpec) returns (out: seq<Suggestion>)
    requires ts != []
    ensures Offers(out, Entries(OfferBehind(ts, spec), map[]))
  {
    hide Offers, InGroupByList, Tagged, WordSet;
    SmallOffers(Suggestion("by", SuggestKeyword));
    SmallOffers(Suggestion("limit", SuggestKeyword));
    var last := ts[|ts| - 1];
    var prev := EOF;
    if |ts| >= 2 {
      prev := ts[|ts| - 2];
    }
    if last == Kw("by") {
      if IsOrderBy(ts) {
        out := GroupableFieldsPlusMetric(spec);
      } else {
        out := GroupableFields(spec);
      }
    } else if last == Kw("where") {
      out := FilterableFields(spec);
    } else if last.kind == TokComma {
      var grouping := ScanGroupByList(ts);
      if grouping {
        out := GroupableFields(spec);
      } else {
        out := [];
      }
    } else if last.kind == TokIdent && prev == Kw("where") {
      out := FixedWords(OPERATORS, SuggestOperator);
    } else if last.kind == TokIdent && (prev == Kw("and") || prev == Kw("or") || prev == Kw("not")) {
      out := FixedWords(OPERATORS, SuggestOperator);
    } else if last == Kw("and") || last == Kw("or") {
      out := FilterableFields(spec);
    } else if last == Kw("order") {
      out := [Suggestion("by", SuggestKeyword)];
    } else if last == Kw("asc") || last == Kw("desc") {
      out := [Suggestion("limit", SuggestKeyword)];
    } else {
      out := [];
    }
  }
}
