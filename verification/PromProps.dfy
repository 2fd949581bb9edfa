// Lowering to PromQL label matchers: which filters it accepts, and that the
// emitted text, read back, selects exactly the series the filter selects.

module PromProps {
  import opened Options
  import opened Strings
  import opened Sorting
  import opened NetqlTypes
  import opened MetricRegistry
  import opened TypeCheck
  import opened Sql
  import opened PromText
  import opened Prom
  import ClickHouseProps
  import LexerProps
  import Parser
  import RoundTrip

  predicate OneLine(s: string) {
    '\n' !in s
  }

  // ---- Quoting ----

  lemma {:induction false} BodyReads(s: string, rest: string)
    ensures ReadBody(Escape(s, QuoteFn()) + ("\"" + rest)) == if OneLine(s) then Some((s, rest)) else None
  {
    var t := Escape(s, QuoteFn()) + ("\"" + rest);
    if s == "" {
      assert t[1..] == rest;
    } else {
      BodyReads(s[1..], rest);
      assert s == [s[0]] + s[1..];
      assert OneLine(s) <==> s[0] != '\n' && OneLine(s[1..]);
      var n := if NeedsQuoting(s[0]) then 2 else 1;
      assert t[n..] == Escape(s[1..], QuoteFn()) + ("\"" + rest);
    }
  }

  // A quoted string reads back as itself exactly if it has no line break.
  lemma QuoteReads(s: string, rest: string)
    ensures ReadString(Quoted(s) + rest) == if OneLine(s) then Some((s, rest)) else None
  {
    BodyReads(s, rest);
    assert (Quoted(s) + rest)[1..] == Escape(s, QuoteFn()) + ("\"" + rest);
  }

  // ---- Patterns ----

  function Lits(s: string): seq<Piece> {
    if s == "" then [] else [Lit(s[0])] + Lits(s[1..])
  }

  lemma {:induction false} EscapedReads(s: string, p: string)
    requires ReadPattern(p).Some?
    ensures ReadPattern(RegexEscaped(s) + p) == Some(Lits(s) + ReadPattern(p).value)
  {
    hide ReadPattern;
    var t := RegexEscaped(s) + p;
    if s == "" {
      assert t == p && [] + ReadPattern(p).value == ReadPattern(p).value;
    } else {
      EscapedReads(s[1..], p);
      var u := RegexEscaped(s[1..]) + p;
      assert t == (if Meta(s[0]) then ['\\', s[0]] else [s[0]]) + u;
      LitReads(s[0], u);
      assert [Lit(s[0])] + (Lits(s[1..]) + ReadPattern(p).value) == Lits(s) + ReadPattern(p).value;
    }
  }

  lemma LitReads(c: char, u: string)
    ensures ReadPattern((if Meta(c) then ['\\', c] else [c]) + u) == Ahead(Lit(c), ReadPattern(u))
  {
    assert (['\\', c] + u)[2..] == u && ([c] + u)[1..] == u;
  }

  lemma StarsRead()
    ensures ReadPattern(".*") == Some([AnyStar])
  {
    assert ".*"[2..] == "";
    assert ReadPattern("") == Some([]);
    assert [AnyStar] + [] == [AnyStar];
  }

  lemma ContainsPatternReads(s: string)
    ensures ReadPattern(".*" + (RegexEscaped(s) + ".*")) == Some([AnyStar] + (Lits(s) + [AnyStar]))
  {
    StarsRead();
    EscapedReads(s, ".*");
    assert (".*" + (RegexEscaped(s) + ".*"))[2..] == RegexEscaped(s) + ".*";
  }

  lemma {:induction false} LitsMatch(s: string, ps: seq<Piece>, t: string)
    ensures Matches(Lits(s) + ps, t) <==> |s| <= |t| && t[..|s|] == s && Matches(ps, t[|s|..])
  {
    if s == "" {
      assert [] + ps == ps && t[0..] == t;
    } else {
      assert Lits(s) + ps == [Lit(s[0])] + (Lits(s[1..]) + ps);
      assert (Lits(s) + ps)[1..] == Lits(s[1..]) + ps;
      if t != "" && t[0] == s[0] {
        LitsMatch(s[1..], ps, t[1..]);
        HeadTail(s, t);
      } else if |s| <= |t| {
        assert t[..|s|][0] == t[0];
      }
    }
  }

  lemma HeadTail(s: string, t: string)
    requires s != "" && t != "" && t[0] == s[0]
    ensures |s| <= |t| ==> (t[..|s|] == s <==> t[1..][..|s| - 1] == s[1..]) && t[1..][|s| - 1..] == t[|s|..]
  {
    if |s| <= |t| {
      assert t[..|s|] == [t[0]] + t[1..][..|s| - 1];
      assert s == [s[0]] + s[1..];
      assert t[..|s|][1..] == t[1..][..|s| - 1];
    }
  }

  lemma StarMatchesAll(t: string)
    ensures Matches([AnyStar], t)
  {
    assert t[|t|..] == "" && [AnyStar][1..] == [];
    assert Matches([], t[|t|..]);
  }

  // The anchored pattern .*s.* with s escaped matches the strings holding s.
  lemma ContainsPatternMeans(s: string, t: string)
    ensures Matches([AnyStar] + (Lits(s) + [AnyStar]), t) <==> Contains(t, s)
  {
    var ps := Lits(s) + [AnyStar];
    assert ([AnyStar] + ps)[1..] == ps;
    forall i: nat | i <= |t|
      ensures Matches(ps, t[i..]) <==> OccursAt(t, s, i)
    {
      LitsMatch(s, [AnyStar], t[i..]);
      if |s| <= |t[i..]| {
        StarMatchesAll(t[i..][|s|..]);
        assert t[i..][..|s|] == t[i..i + |s|];
      }
    }
    if i: nat :| OccursAt(t, s, i) {
      assert i <= |t|;
    }
  }

  // ---- One matcher ----

  function OpText(op: MatchOp): string {
    match op
    case MEq => "="
    case MNe => "!="
    case MRe => "=~"
  }

  function Written(m: Matcher): string {
    MatcherText(m.name, OpText(m.op), m.value)
  }

  lemma {:induction false} LabelSpans(s: string, rest: string)
    requires forall i :: 0 <= i < |s| ==> LabelChar(s[i])
    requires rest == "" || !LabelChar(rest[0])
    ensures LabelSpan(s + rest) == |s|
  {
    if s == "" {
      assert s + rest == rest;
    } else {
      LabelSpans(s[1..], rest);
      assert (s + rest)[1..] == s[1..] + rest;
    }
  }

  lemma MatcherReads(m: Matcher, rest: string)
    requires IsLabel(m.name)
    ensures ReadMatcher(Written(m) + rest) == if OneLine(m.value) then Some((m, rest)) else None
  {
    hide Quoted, ReadString;
    var op := OpText(m.op);
    var u := Quoted(m.value) + rest;
    var t := Written(m) + rest;
    assert t == m.name + (op + u);
    LabelSpans(m.name, op + u);
    assert t[|m.name|..] == op + u && t[..|m.name|] == m.name;
    assert (op + u)[|op|..] == u;
    QuotedStarts(m.value);
    QuoteReads(m.value, rest);
  }

  lemma QuotedStarts(s: string)
    ensures Quoted(s) != "" && Quoted(s)[0] == '"'
  {
  }

  // ---- The list of matchers ----

  function Texts(ms: seq<Matcher>): (ts: seq<string>)
    ensures |ts| == |ms| && forall i :: 0 <= i < |ms| ==> ts[i] == Written(ms[i])
  {
    seq(|ms|, i requires 0 <= i < |ms| => Written(ms[i]))
  }

  predicate Labelled(ms: seq<Matcher>) {
    forall m <- ms :: IsLabel(m.name)
  }

  predicate AllOneLine(ms: seq<Matcher>) {
    forall m <- ms :: OneLine(m.value)
  }

  lemma {:induction false} ListReads(ms: seq<Matcher>)
    requires ms != [] && Labelled(ms)
    ensures ReadMatchers(Join(Texts(ms), ",") + "}") == if AllOneLine(ms) then Some(ms) else None
  {
    hide ReadMatcher, Written;
    var ts := Texts(ms);
    var m, t := ms[0], Join(ts, ",") + "}";
    if |ms| == 1 {
      MatcherReads(m, "}");
      assert ms == [m];
    } else {
      var rest := "," + (Join(ts[1..], ",") + "}");
      assert ts[1..] == Texts(ms[1..]);
      assert t == Written(m) + rest;
      assert rest[1..] == Join(ts[1..], ",") + "}";
      MatcherReads(m, rest);
      ListReads(ms[1..]);
      assert ms == [m] + ms[1..];
      if OneLine(m.value) {
        LongerList(t, m, rest);
      }
    }
  }

  lemma LongerList(t: string, m: Matcher, rest: string)
    requires ReadMatcher(t) == Some((m, rest)) && |rest| <= |t|
    requires rest != "" && rest[0] == ','
    ensures ReadMatchers(t) == match ReadMatchers(rest[1..]) case None => None case Some(ms) => Some([m] + ms)
  {
    hide ReadMatcher;
  }

  lemma TextIn(ms: seq<Matcher>, m: Matcher)
    requires m in ms
    ensures Written(m) in Texts(ms)
  {
    hide Written;
    var i :| 0 <= i < |ms| && ms[i] == m;
    assert Texts(ms)[i] == Written(m);
  }

  lemma PickText(ms: seq<Matcher>, t: string) returns (m: Matcher)
    requires t in Texts(ms)
    ensures m in ms && Written(m) == t
  {
    hide Written;
    var i :| 0 <= i < |ms| && Texts(ms)[i] == t;
    m := ms[i];
  }

  // Sorted texts are the texts of the same matchers in another order.
  lemma {:induction false} Rearranged(ms: seq<Matcher>, ts: seq<string>) returns (ns: seq<Matcher>)
    requires forall t <- ts :: t in Texts(ms)
    ensures Texts(ns) == ts && forall n <- ns :: n in ms
  {
    hide Written;
    if ts == [] {
      ns := [];
    } else {
      var m := PickText(ms, ts[0]);
      var rest := Rearranged(ms, ts[1..]);
      ns := [m] + rest;
      assert ts == [ts[0]] + ts[1..];
    }
  }

  lemma WrittenInjective(m: Matcher, n: Matcher)
    requires IsLabel(m.name) && IsLabel(n.name) && Written(m) == Written(n)
    ensures OneLine(m.value) <==> OneLine(n.value)
    ensures OneLine(m.value) ==> m == n
  {
    hide Written, ReadMatcher;
    MatcherReads(m, "");
    MatcherReads(n, "");
  }

  // If every text of ms is a text of ns, a one-line m of ms is in ns.
  lemma Covered(ms: seq<Matcher>, ns: seq<Matcher>, m: Matcher)
    requires Labelled(ms) && Labelled(ns) && m in ms && Written(m) in Texts(ns)
    ensures AllOneLine(ns) ==> OneLine(m.value)
    ensures OneLine(m.value) ==> m in ns
  {
    hide Written;
    var n := PickText(ns, Written(m));
    WrittenInjective(m, n);
  }

  // The matchers in the order their texts are sorted in.
  lemma SortedMatchers(ms: seq<Matcher>) returns (ns: seq<Matcher>)
    requires Labelled(ms)
    ensures Texts(ns) == Sort(Texts(ms), TextLeq) && Labelled(ns)
    ensures AllOneLine(ms) <==> AllOneLine(ns)
    ensures AllOneLine(ms) ==> forall m :: m in ns <==> m in ms
  {
    hide Written, Sort, Texts;
    var sorted := Sort(Texts(ms), TextLeq);
    SameElements(sorted, Texts(ms));
    ns := Rearranged(ms, sorted);
    forall m <- ms
      ensures AllOneLine(ns) ==> OneLine(m.value)
      ensures OneLine(m.value) ==> m in ns
    {
      TextIn(ms, m);
      Covered(ms, ns, m);
    }
  }

  // The selector reads back as the same set of matchers exactly if no value
  // contains a line break.
  lemma SelectorReads(ms: seq<Matcher>) returns (ns: seq<Matcher>)
    requires Labelled(ms)
    ensures ReadSelector(Selector(Texts(ms))) == if AllOneLine(ms) then Some(ns) else None
    ensures AllOneLine(ms) ==> forall m :: m in ns <==> m in ms
  {
    hide Written, ReadMatchers, Join, Sort;
    ns := SortedMatchers(ms);
    if ms == [] {
      assert |Texts(ns)| == 0;
    } else {
      ListReads(ns);
      var s := Selector(Texts(ms));
      assert s[1..] == Join(Texts(ns), ",") + "}";
    }
  }

  // Some engine is faithful.
  lemma FaithfulEngine()
    ensures exists rx: (string, string) -> bool :: Faithful(rx)
  {
    hide ReadPattern, Matches;
    var rx: (string, string) -> bool := (p: string, v: string) => ReadPattern(p).Some? && Matches(ReadPattern(p).value, v);
    assert Faithful(rx);
  }

  // ---- Which filters are accepted, and what they mean ----

  predicate LeafLowers(p: Predicate, spec: MetricSpec) {
    (p.field in spec.groupBy || p.field in spec.filter) && p.op in {OpEq, OpNe, OpContains, OpMatches}
  }

  // Nested conjunctions of expressible leaves.
  predicate Conjunctive(e: Expr, spec: MetricSpec) {
    match e
    case Pred(p) => LeafLowers(p, spec)
    case And(terms) => forall t <- terms :: Conjunctive(t, spec)
    case Or(terms) => terms == []
    case Not(_) => false
  }

  function LeafMatcher(p: Predicate, spec: MetricSpec): Matcher
    requires LeafLowers(p, spec)
  {
    var name := LabelOf(spec, p.field).value;
    var text := TextField(p.value);
    match p.op
    case OpEq => Matcher(name, MEq, text)
    case OpNe => Matcher(name, MNe, text)
    case OpContains => Matcher(name, MRe, ".*" + (RegexEscaped(text) + ".*"))
    case _ => Matcher(name, MRe, text)
  }

  function LeafMatchers(ps: seq<Predicate>, spec: MetricSpec): (ms: seq<Matcher>)
    requires forall p <- ps :: LeafLowers(p, spec)
    ensures |ms| == |ps| && forall i :: 0 <= i < |ps| ==> ms[i] == LeafMatcher(ps[i], spec)
  {
    seq(|ps|, i requires 0 <= i < |ps| => LeafMatcher(ps[i], spec))
  }

  // Lowering succeeds exactly on conjunctive filters, and writes one matcher
  // per leaf.
  lemma {:induction false} LowersIff(e: Expr, spec: MetricSpec)
    ensures LowerExpr(e, spec).Lowered? <==> Conjunctive(e, spec)
    ensures Conjunctive(e, spec) ==>
              && (forall p <- Leaves(e) :: LeafLowers(p, spec))
              && LowerExpr(e, spec).matchers == Texts(LeafMatchers(Leaves(e), spec))
    decreases e
  {
    hide Written, MatcherText, RegexEscaped;
    match e
    case Pred(p) => PredicateLowers(p, spec);
    case And(terms) => TermsLowerIff(terms, spec);
    case Or(terms) =>
    case Not(_) =>
  }

  lemma PredicateLowers(p: Predicate, spec: MetricSpec)
    ensures LowerPredicate(p, spec).Lowered? <==> LeafLowers(p, spec)
    ensures LeafLowers(p, spec) ==> LowerPredicate(p, spec).matchers == Texts(LeafMatchers([p], spec))
  {
    hide RegexEscaped, Quoted;
    if LeafLowers(p, spec) {
      var ms := LeafMatchers([p], spec);
      assert Texts(ms) == [Written(LeafMatcher(p, spec))];
    }
  }

  lemma {:induction false} TermsLowerIff(es: seq<Expr>, spec: MetricSpec)
    ensures LowerTerms(es, spec).Lowered? <==> forall e <- es :: Conjunctive(e, spec)
    ensures (forall e <- es :: Conjunctive(e, spec)) ==>
              && (forall p <- AllLeaves(es) :: LeafLowers(p, spec))
              && LowerTerms(es, spec).matchers == Texts(LeafMatchers(AllLeaves(es), spec))
    decreases es
  {
    hide LeafLowers, LeafMatcher, Written;
    if es == [] {
      assert Texts(LeafMatchers(AllLeaves([]), spec)) == [];
    } else {
      LowersIff(es[0], spec);
      TermsLowerIff(es[1..], spec);
      assert es == [es[0]] + es[1..];
      if forall e <- es :: Conjunctive(e, spec) {
        var a, b := Leaves(es[0]), AllLeaves(es[1..]);
        assert LeafMatchers(a + b, spec) == LeafMatchers(a, spec) + LeafMatchers(b, spec);
        assert Texts(LeafMatchers(a + b, spec)) == Texts(LeafMatchers(a, spec)) + Texts(LeafMatchers(b, spec));
      }
    }
  }

  // err is about the first thing in e, from left to right, that a selector
  // cannot say: an `or`, a `not`, a field without label, or an operator that
  // is none of the four.
  predicate Obstacle(err: LowerError, e: Expr, spec: MetricSpec) {
    match e
    case Pred(p) =>
      (match err
       case UnknownLabel(f) => f == p.field && f !in spec.groupBy && f !in spec.filter
       case BadOp(op) =>
         op == p.op && op !in {OpEq, OpNe, OpMatches, OpContains} && (p.field in spec.groupBy || p.field in spec.filter)
       case _ => false)
    case And(terms) => ObstacleAmong(err, terms, spec)
    case Or(terms) => err == HasOr && terms != []
    case Not(_) => err == HasNot
  }

  predicate ObstacleAmong(err: LowerError, es: seq<Expr>, spec: MetricSpec) {
    es != [] && if Conjunctive(es[0], spec) then ObstacleAmong(err, es[1..], spec) else Obstacle(err, es[0], spec)
  }

  lemma {:induction false} ErrorNamesObstacle(e: Expr, spec: MetricSpec)
    ensures LowerExpr(e, spec).NotLowered? ==> Obstacle(LowerExpr(e, spec).e, e, spec)
    decreases e
  {
    hide MatcherText, RegexEscaped, Conjunctive;
    match e
    case Pred(p) =>
    case And(terms) => FirstErrorNamed(terms, spec);
    case Or(terms) =>
    case Not(_) =>
  }

  lemma {:induction false} FirstErrorNamed(es: seq<Expr>, spec: MetricSpec)
    ensures LowerTerms(es, spec).NotLowered? ==> ObstacleAmong(LowerTerms(es, spec).e, es, spec)
    decreases es
  {
    hide Conjunctive, Obstacle, LowerExpr;
    if es != [] {
      LowersIff(es[0], spec);
      ErrorNamesObstacle(es[0], spec);
      FirstErrorNamed(es[1..], spec);
    }
  }

  // What the filter says about a series: a field that can also be grouped by
  // means the label it is grouped under.
  ghost predicate LeafSelects(p: Predicate, spec: MetricSpec, s: Series)
    requires LeafFits(p, spec)
  {
    var name := if p.field in spec.groupBy then spec.groupBy[p.field] else spec.filter[p.field].column;
    var v := LabelValue(s, name);
    match (p.op, p.value)
    case (OpEq, ValString(x)) => v == x
    case (OpNe, ValString(x)) => v != x
    case (OpContains, ValString(x)) => Contains(v, x)
    case (OpMatches, ValString(x)) => s.rx(x, v)
    case (OpIn, ValStringList(xs)) => v in xs
    case _ => false
  }

  ghost predicate Selects(e: Expr, spec: MetricSpec, s: Series)
    requires Fits(e, spec)
  {
    match e
    case Pred(p) =>
      assert p in Leaves(e);
      LeafSelects(p, spec, s)
    case And(terms) =>
      assert forall t <- terms, p <- Leaves(t) :: p in Leaves(e) by { LeavesOfTerms(terms); }
      forall t <- terms :: Selects(t, spec, s)
    case Or(terms) =>
      assert forall t <- terms, p <- Leaves(t) :: p in Leaves(e) by { LeavesOfTerms(terms); }
      exists t <- terms :: Selects(t, spec, s)
    case Not(inner) => !Selects(inner, spec, s)
  }

  lemma {:induction false} LeavesOfTerms(es: seq<Expr>)
    ensures forall t <- es, p <- Leaves(t) :: p in AllLeaves(es)
  {
    if es != [] {
      LeavesOfTerms(es[1..]);
      assert es == [es[0]] + es[1..];
    }
  }

  // The filter fields are strings, and all fields stand for well-formed labels.
  predicate PromReady(spec: MetricSpec) {
    && (forall f <- spec.filter :: spec.filter[f].kind.FieldString? && IsLabel(spec.filter[f].column))
    && (forall f <- spec.groupBy :: IsLabel(spec.groupBy[f]))
  }

  lemma LeafMatcherHolds(p: Predicate, spec: MetricSpec, s: Series)
    requires LeafFits(p, spec) && LeafLowers(p, spec) && PromReady(spec) && Faithful(s.rx)
    ensures IsLabel(LeafMatcher(p, spec).name)
    ensures MatcherHolds(LeafMatcher(p, spec), s) <==> LeafSelects(p, spec, s)
    ensures OneLine(LeafMatcher(p, spec).value) <==> OneLine(TextField(p.value))
  {
    hide RegexEscaped, Contains;
    if p.op.OpContains? {
      var x := TextField(p.value);
      ContainsPatternReads(x);
      ContainsPatternMeans(x, LabelValue(s, LabelOf(spec, p.field).value));
      EscapedLines(x);
      assert OneLine(".*" + (RegexEscaped(x) + ".*")) <==> OneLine(RegexEscaped(x));
    }
  }

  lemma {:induction false} EscapedLines(s: string)
    ensures OneLine(RegexEscaped(s)) <==> OneLine(s)
  {
    if s != "" {
      EscapedLines(s[1..]);
      assert s == [s[0]] + s[1..];
    }
  }

  lemma {:induction false} ConjunctionSelects(e: Expr, spec: MetricSpec, s: Series)
    requires Fits(e, spec) && Conjunctive(e, spec) && Shaped(e)
    ensures Selects(e, spec, s) <==> forall p <- Leaves(e) :: LeafSelects(p, spec, s)
    decreases e
  {
    hide LeafSelects, LeafFits;
    match e
    case Pred(p) => assert p in Leaves(e);
    case And(terms) => TermsSelect(terms, spec, s);
    case _ =>
  }

  lemma {:induction false} TermsSelect(es: seq<Expr>, spec: MetricSpec, s: Series)
    requires (forall p <- AllLeaves(es) :: LeafFits(p, spec)) && (forall e <- es :: Conjunctive(e, spec) && Shaped(e))
    ensures forall e <- es :: Fits(e, spec)
    ensures (forall e <- es :: Selects(e, spec, s)) <==> forall p <- AllLeaves(es) :: LeafSelects(p, spec, s)
    decreases es
  {
    hide LeafSelects, LeafFits;
    if es != [] {
      assert forall p <- Leaves(es[0]) :: p in AllLeaves(es);
      assert forall p <- AllLeaves(es[1..]) :: p in AllLeaves(es);
      ConjunctionSelects(es[0], spec, s);
      TermsSelect(es[1..], spec, s);
      assert es == [es[0]] + es[1..];
    }
  }

  predicate LiteralsOneLine(e: Expr) {
    forall p <- Leaves(e) :: OneLine(TextField(p.value))
  }

  // The emitted selector is readable exactly if no literal contains a line
  // break, and then it selects the series the filter selects.
  lemma SelectorMeans(e: Expr, spec: MetricSpec, s: Series)
    requires Fits(e, spec) && Shaped(e) && Conjunctive(e, spec)
    requires PromReady(spec) && Faithful(s.rx)
    ensures LowerExpr(e, spec).Lowered?
    ensures var r := ReadSelector(Selector(LowerExpr(e, spec).matchers));
            && (r.Some? <==> LiteralsOneLine(e))
            && (r.Some? ==> ((forall m <- r.value :: MatcherHolds(m, s)) <==> Selects(e, spec, s)))
  {
    hide Selector, ReadSelector, Selects, LeafSelects, Faithful, PromReady, LeafFits, LeafLowers, Conjunctive, LeafMatcher, Shaped, MatcherHolds;
    LowersIff(e, spec);
    var ps := Leaves(e);
    var ms := LeafMatchers(ps, spec);
    forall p <- ps
      ensures IsLabel(LeafMatcher(p, spec).name)
      ensures MatcherHolds(LeafMatcher(p, spec), s) <==> LeafSelects(p, spec, s)
      ensures OneLine(LeafMatcher(p, spec).value) <==> OneLine(TextField(p.value))
    {
      LeafMatcherHolds(p, spec, s);
    }
    EachLeaf(ps, spec, s);
    var ns := SelectorReads(ms);
    ConjunctionSelects(e, spec, s);
  }

  // Facts about single leaves, carried over to the lists.
  lemma EachLeaf(ps: seq<Predicate>, spec: MetricSpec, s: Series)
    requires forall p <- ps :: LeafLowers(p, spec) && LeafFits(p, spec)
    requires forall p <- ps ::
               && IsLabel(LeafMatcher(p, spec).name)
               && (MatcherHolds(LeafMatcher(p, spec), s) <==> LeafSelects(p, spec, s))
               && (OneLine(LeafMatcher(p, spec).value) <==> OneLine(TextField(p.value)))
    ensures var ms := LeafMatchers(ps, spec);
            && Labelled(ms)
            && (AllOneLine(ms) <==> forall p <- ps :: OneLine(TextField(p.value)))
            && ((forall m <- ms :: MatcherHolds(m, s)) <==> forall p <- ps :: LeafSelects(p, spec, s))
  {
    hide LeafSelects, LeafFits, LeafLowers, LeafMatcher, MatcherHolds, IsLabel, OneLine;
    var ms := LeafMatchers(ps, spec);
    forall p <- ps
      ensures LeafMatcher(p, spec) in ms
    {
      var i :| 0 <= i < |ps| && ps[i] == p;
      assert ms[i] == LeafMatcher(p, spec);
    }
  }

  // From the query text on: a parsed and checked query of a Prometheus metric
  // gets a selector exactly if its filter is a conjunction of expressible
  // leaves; the selector is readable exactly if no literal contains a line
  // break, and then it selects the series the filter selects.
  lemma CompiledSelectorMeans(input: string, q: Query, metrics: Metrics, s: Series)
    requires Parser.Parses(input, Parser.Accepted(q)) && LexerProps.AsciiWords(input) && Check(q, metrics) == None
    requires metrics[q.metric].backend == Prometheus && PromReady(metrics[q.metric]) && Faithful(s.rx)
    ensures var spec, r := metrics[q.metric], SelectorOf(q, metrics);
            && (r.PromSelector? <==> (q.filter.Some? ==> Conjunctive(q.filter.value, spec)))
            && (r.PromSelector? ==>
                  var read := ReadSelector(r.text);
                  && (read.Some? <==> (q.filter.Some? ==> LiteralsOneLine(q.filter.value)))
                  && (read.Some? ==>
                        ((forall m <- read.value :: MatcherHolds(m, s)) <==>
                         (q.filter.Some? ==> Fits(q.filter.value, spec) && Selects(q.filter.value, spec, s)))))
  {
    hide Parser.Parses, PromReady, Faithful, Selects, Conjunctive, LiteralsOneLine, LowerExpr, Fits;
    CheckIff(q, metrics);
    var spec := metrics[q.metric];
    if q.filter.Some? {
      LowersIff(q.filter.value, spec);
      if Conjunctive(q.filter.value, spec) {
        RoundTrip.ParsedCanBePrinted(input, q);
        ClickHouseProps.WfShaped(q.filter.value);
        SelectorMeans(q.filter.value, spec, s);
      }
    }
  }

  // ---- Which literals survive ----

  lemma {:induction false} EscapeInjective(s: string, t: string, p: char -> bool)
    requires p('\\') && Escape(s, p) == Escape(t, p)
    ensures s == t
  {
    if s != "" && t != "" {
      SameFirstChar(s, t, p);
      EscapeInjective(s[1..], t[1..], p);
      assert s == [s[0]] + s[1..] && t == [t[0]] + t[1..];
    }
  }

  lemma SameFirstChar(s: string, t: string, p: char -> bool)
    requires p('\\') && s != "" && t != "" && Escape(s, p) == Escape(t, p)
    ensures s[0] == t[0] && Escape(s[1..], p) == Escape(t[1..], p)
  {
    var u := Escape(s, p);
    assert u[0] == '\\' <==> p(s[0]);
    assert u[0] == '\\' <==> p(t[0]);
    var n := if p(s[0]) then 2 else 1;
    assert u[n - 1] == s[0] && u[n - 1] == t[0];
    assert u[n..] == Escape(s[1..], p) && u[n..] == Escape(t[1..], p);
  }

  lemma QuotedInjective(s: string, t: string)
    requires Quoted(s) == Quoted(t)
    ensures s == t
  {
    var a, b := Escape(s, QuoteFn()), Escape(t, QuoteFn());
    assert Quoted(s)[1..|Quoted(s)| - 1] == a && Quoted(t)[1..|Quoted(t)| - 1] == b;
    EscapeInjective(s, t, QuoteFn());
  }

  lemma MatcherInjective(name: string, op: string, s: string, t: string)
    requires MatcherText(name, op, s) == MatcherText(name, op, t)
    ensures s == t
  {
    hide Quoted;
    var n := |name| + |op|;
    assert MatcherText(name, op, s)[n..] == Quoted(s) && MatcherText(name, op, t)[n..] == Quoted(t);
    QuotedInjective(s, t);
  }

  lemma ContainsInjective(s: string, t: string)
    requires ".*" + (RegexEscaped(s) + ".*") == ".*" + (RegexEscaped(t) + ".*")
    ensures s == t
  {
    var a, b := RegexEscaped(s), RegexEscaped(t);
    var x, y := ".*" + (a + ".*"), ".*" + (b + ".*");
    assert x[2..|x| - 2] == a && y[2..|y| - 2] == b;
    EscapeInjective(s, t, MetaFn());
  }

  // Two literals the checker accepts for one field and one expressible
  // operator are lowered to the same matcher exactly if they are the same
  // literal or the field is not a string field: string literals are told
  // apart, line breaks included, and of other literals nothing is kept.
  lemma LiteralKeptIff(spec: MetricSpec, field: string, op: Op, v: Value, w: Value)
    requires CheckPredicate(Predicate(field, op, v), spec) == None
    requires CheckPredicate(Predicate(field, op, w), spec) == None
    requires LeafLowers(Predicate(field, op, v), spec)
    ensures LowerPredicate(Predicate(field, op, v), spec) == LowerPredicate(Predicate(field, op, w), spec)
       <==> v == w || !spec.filter[field].kind.FieldString?
  {
    hide Quoted, MatcherText, RegexEscaped;
    var name := LabelOf(spec, field).value;
    var x, y := TextField(v), TextField(w);
    if LowerPredicate(Predicate(field, op, v), spec) == LowerPredicate(Predicate(field, op, w), spec) {
      match op
      case OpEq => MatcherInjective(name, "=", x, y);
      case OpNe => MatcherInjective(name, "!=", x, y);
      case OpMatches => MatcherInjective(name, "=~", x, y);
      case OpContains =>
        MatcherInjective(name, "=~", ".*" + (RegexEscaped(x) + ".*"), ".*" + (RegexEscaped(y) + ".*"));
        ContainsInjective(x, y);
      case _ =>
    }
  }

  // For instance, an equality on a numeric field passes the checker but
  // compares the label with "".
  lemma NumericEqualityIsLost(spec: MetricSpec, field: string, x: real)
    requires field in spec.filter && spec.filter[field].kind.FieldNumber?
    requires field !in spec.groupBy
    ensures var e := Pred(Predicate(field, OpEq, ValNumber(x)));
            && CheckExpr(e, spec) == None
            && LowerExpr(e, spec) == Lowered([spec.filter[field].column + "=\"\""])
  {
    assert Escape("", QuoteFn()) == "";
    assert Quoted("") == "\"\"";
    assert "=" + Quoted("") == "=\"\"";
  }
}
