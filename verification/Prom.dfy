// The label matchers of the PromQL backend (pkg/netql/translate_prom.go).

module Prom {
  import opened Options
  import opened Strings
  import opened Sorting
  import opened NetqlTypes
  import opened MetricRegistry
  import opened TypeCheck
  import opened PromText

  // A backslash in front of every character that satisfies p.
  function Escape(s: string, p: char -> bool): string {
    if s == "" then "" else EscapeChar(s[0], p) + Escape(s[1..], p)
  }

  function EscapeChar(c: char, p: char -> bool): string {
    if p(c) then ['\\', c] else [c]
  }

  lemma {:induction false} EscapeAppend(a: string, b: string, p: char -> bool)
    ensures Escape(a + b, p) == Escape(a, p) + Escape(b, p)
  {
    hide EscapeChar;
    if a == "" {
      assert a + b == b;
    } else {
      EscapeAppend(a[1..], b, p);
      assert (a + b)[1..] == a[1..] + b && (a + b)[0] == a[0];
    }
  }

  predicate Meta(c: char) {
    c in "\\.+*?()|[]{}^$"
  }

  predicate NeedsQuoting(c: char) {
    c == '\\' || c == '"'
  }

  function QuoteFn(): char -> bool { (c: char) => NeedsQuoting(c) }
  function MetaFn(): char -> bool { (c: char) => Meta(c) }

  function Quoted(s: string): string {
    "\"" + (Escape(s, QuoteFn()) + "\"")
  }

  function RegexEscaped(s: string): string {
    Escape(s, MetaFn())
  }

  method Quote(s: string) returns (r: string)
    ensures r == Quoted(s)
  {
    var sb := "\"";
    for i := 0 to |s|
      invariant sb == "\"" + Escape(s[..i], QuoteFn())
    {
      var c := s[i];
      EscapeAppend(s[..i], [c], QuoteFn());
      assert s[..i + 1] == s[..i] + [c];
      if c == '\\' || c == '"' {
        sb := sb + "\\";
      }
      sb := sb + [c];
    }
    assert s[..|s|] == s;
    return sb + "\"";
  }

  method RegexEscape(s: string) returns (r: string)
    ensures r == RegexEscaped(s)
  {
    r := "";
    for i := 0 to |s|
      invariant r == Escape(s[..i], MetaFn())
    {
      var c := s[i];
      EscapeAppend(s[..i], [c], MetaFn());
      assert s[..i + 1] == s[..i] + [c];
      if c in "\\.+*?()|[]{}^$" {
        r := r + "\\";
      }
      r := r + [c];
    }
    assert s[..|s|] == s;
  }

  // ---- Collecting matchers ----

  datatype LowerError = HasOr | HasNot | UnknownLabel(field: string) | BadOp(op: Op)

  datatype Lowered = Lowered(matchers: seq<string>) | NotLowered(e: LowerError)

  // The String field of a value; empty unless it holds a string.
  function TextField(v: Value): string {
    if v.ValString? then v.s else ""
  }

  function LabelOf(spec: MetricSpec, field: string): Option<string> {
    if field in spec.groupBy then Some(spec.groupBy[field])
    else if field in spec.filter then Some(spec.filter[field].column)
    else None
  }

  function MatcherText(name: string, op: string, value: string): string {
    name + (op + Quoted(value))
  }

  function LowerPredicate(p: Predicate, spec: MetricSpec): Lowered {
    match LabelOf(spec, p.field)
    case None => NotLowered(UnknownLabel(p.field))
    case Some(name) =>
      match p.op
      case OpEq => Lowered([MatcherText(name, "=", TextField(p.value))])
      case OpNe => Lowered([MatcherText(name, "!=", TextField(p.value))])
      case OpMatches => Lowered([MatcherText(name, "=~", TextField(p.value))])
      case OpContains => Lowered([MatcherText(name, "=~", ".*" + (RegexEscaped(TextField(p.value)) + ".*"))])
      case op => NotLowered(BadOp(op))
  }

  function LowerExpr(e: Expr, spec: MetricSpec): Lowered {
    match e
    case Pred(p) => LowerPredicate(p, spec)
    case And(terms) => LowerTerms(terms, spec)
    case Or(terms) => if terms == [] then Lowered([]) else NotLowered(HasOr)
    case Not(_) => NotLowered(HasNot)
  }

  function LowerTerms(es: seq<Expr>, spec: MetricSpec): Lowered {
    if es == [] then Lowered([])
    else After(LowerExpr(es[0], spec), LowerTerms(es[1..], spec))
  }

  // The matchers of both, or the first error.
  function After(x: Lowered, y: Lowered): Lowered {
    match (x, y)
    case (NotLowered(_), _) => x
    case (_, NotLowered(_)) => y
    case (Lowered(a), Lowered(b)) => Lowered(a + b)
  }

  // The brace list, sorted by text; nothing if there are no matchers.
  function Selector(matchers: seq<string>): string {
    if matchers == [] then "" else "{" + (Join(Sort(matchers, TextLeq), ",") + "}")
  }

  class Translator {
    const spec: MetricSpec
    var matchers: seq<string>

    constructor (spec: MetricSpec)
      ensures this.spec == spec && matchers == []
    {
      this.spec := spec;
      matchers := [];
    }

    // The matchers so far, continued by what the expression lowers to.
    twostate predicate Collected(new err: Option<LowerError>, x: Lowered)
      reads this
    {
      match x
      case Lowered(ms) => err == None && matchers == old(matchers) + ms
      case NotLowered(e) => err == Some(e)
    }

    method CollectLabels(e: Expr) returns (err: Option<LowerError>)
      modifies this
      ensures Collected(err, LowerExpr(e, spec))
      decreases e
    {
      hide LowerPredicate, LowerTerms;
      NoTerms(spec);
      match e
      case Pred(p) => err := CollectPredicate(p);
      case And(terms) =>
        for i := 0 to |terms|
          invariant LowerTerms(terms[..i], spec).Lowered?
          invariant matchers == old(matchers) + LowerTerms(terms[..i], spec).matchers
        {
          NextTerm(terms, i, spec);
          err := CollectLabels(terms[i]);
          if err.Some? {
            return;
          }
        }
        assert terms[..|terms|] == terms;
        err := None;
      case Or(terms) =>
        err := if |terms| > 0 then Some(HasOr) else None;
      case Not(_) =>
        err := Some(HasNot);
    }

    method CollectPredicate(p: Predicate) returns (err: Option<LowerError>)
      modifies this
      ensures Collected(err, LowerPredicate(p, spec))
      ensures err.Some? ==> matchers == old(matchers)
    {
      var name: string;
      if p.field in spec.groupBy {
        name := spec.groupBy[p.field];
      } else if p.field in spec.filter {
        name := spec.filter[p.field].column;
      } else {
        return Some(UnknownLabel(p.field));
      }
      var text := TextField(p.value);
      var quoted: string;
      match p.op
      case OpEq =>
        quoted := Quote(text);
        matchers := matchers + [name + ("=" + quoted)];
        err := None;
      case OpNe =>
        quoted := Quote(text);
        matchers := matchers + [name + ("!=" + quoted)];
        err := None;
      case OpMatches =>
        quoted := Quote(text);
        matchers := matchers + [name + ("=~" + quoted)];
        err := None;
      case OpContains =>
        var escaped := RegexEscape(text);
        quoted := Quote(".*" + (escaped + ".*"));
        matchers := matchers + [name + ("=~" + quoted)];
        err := None;
      case op =>
        err := Some(BadOp(op));
    }

    // The matcher part of emit.
    method EmitMatchers() returns (s: string)
      modifies this
      ensures s == Selector(old(matchers))
    {
      s := "";
      if |matchers| > 0 {
        matchers := Sort(matchers, TextLeq);
        s := "{" + (Join(matchers, ",") + "}");
      }
    }
  }

  datatype PromResult = PromSelector(text: string) | Rejected(e: TypeError) | WrongBackend | NotExpressible(cause: LowerError)

  function LowerFilter(f: Option<Expr>, spec: MetricSpec): Lowered {
    if f.Some? then LowerExpr(f.value, spec) else Lowered([])
  }

  function SelectorOf(q: Query, metrics: Metrics): PromResult {
    match Check(q, metrics)
    case Some(e) => Rejected(e)
    case None =>
      CheckIff(q, metrics);
      var spec := metrics[q.metric];
      if spec.backend != Prometheus then WrongBackend
      else match LowerFilter(q.filter, spec)
           case NotLowered(e) => NotExpressible(e)
           case Lowered(ms) => PromSelector(Selector(ms))
  }

  // TranslatePrometheus, up to the text around the selector.
  method TranslateSelector(q: Query, metrics: Metrics) returns (r: PromResult)
    ensures r == SelectorOf(q, metrics)
  {
    hide Check, LowerExpr, Selector;
    var err := Check(q, metrics);
    if err.Some? {
      return Rejected(err.value);
    }
    CheckIff(q, metrics);
    var spec := metrics[q.metric];
    if spec.backend != Prometheus {
      return WrongBackend;
    }
    var t := new Translator(spec);
    if q.filter.Some? {
      var lowerErr := t.CollectLabels(q.filter.value);
      if lowerErr.Some? {
        return NotExpressible(lowerErr.value);
      }
    }
    assert t.matchers == LowerFilter(q.filter, spec).matchers;
    var text := t.EmitMatchers();
    return PromSelector(text);
  }

  // A list of terms, taken apart at one of them.
  lemma {:induction false} LowerSplit(a: seq<Expr>, e: Expr, b: seq<Expr>, spec: MetricSpec)
    ensures LowerTerms(a + ([e] + b), spec) ==
            After(LowerTerms(a, spec), After(LowerExpr(e, spec), LowerTerms(b, spec)))
    decreases |a|
  {
    hide LowerExpr;
    var all := a + ([e] + b);
    if a == [] {
      assert all[0] == e && all[1..] == b;
      var x := After(LowerExpr(e, spec), LowerTerms(b, spec));
      assert x.Lowered? ==> [] + x.matchers == x.matchers;
    } else {
      LowerSplit(a[1..], e, b, spec);
      assert all[1..] == a[1..] + ([e] + b);
      AfterAssoc(LowerExpr(a[0], spec), LowerTerms(a[1..], spec), After(LowerExpr(e, spec), LowerTerms(b, spec)));
    }
  }

  lemma NoTerms(spec: MetricSpec)
    ensures LowerTerms([], spec) == Lowered([])
  {
  }

  lemma NextTerm(es: seq<Expr>, i: nat, spec: MetricSpec)
    requires i < |es| && LowerTerms(es[..i], spec).Lowered?
    ensures match LowerExpr(es[i], spec)
            case NotLowered(err) => LowerTerms(es, spec) == NotLowered(err)
            case Lowered(ms) => LowerTerms(es[..i + 1], spec) == Lowered(LowerTerms(es[..i], spec).matchers + ms)
  {
    hide LowerExpr;
    LowerSplit(es[..i], es[i], es[i + 1..], spec);
    assert es == es[..i] + ([es[i]] + es[i + 1..]);
    LowerSplit(es[..i], es[i], [], spec);
    assert es[..i + 1] == es[..i] + ([es[i]] + []);
  }

  lemma AfterAssoc(x: Lowered, y: Lowered, z: Lowered)
    ensures After(x, After(y, z)) == After(After(x, y), z)
  {
    if x.Lowered? && y.Lowered? && z.Lowered? {
      assert x.matchers + (y.matchers + z.matchers) == x.matchers + y.matchers + z.matchers;
    }
  }
}
