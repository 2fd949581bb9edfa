// Printing and reading back. Print writes a syntax tree as netql text with
// the parentheses the grammar needs; Lex and Parse give the tree back. The
// trees this covers are exactly the ones the parser can produce.

module RoundTrip {
  import opened Options
  import opened Decimal
  import opened Strings
  import opened NetqlTypes
  import opened Numbers
  import opened Lexer
  import opened LexerProps
  import opened ParserSpec
  import opened Grammar
  import opened GrammarSound
  import opened Parser

  // ---- Trees that can be written ----

  predicate IsName(s: string) {
    IsWord(s) && Folded(s) == s && s !in RESERVED
  }

  predicate IsText(s: string) {
    '\'' !in s
  }

  ghost predicate WfValue(v: Value, op: Op) {
    match v
    case ValString(s) => op != OpIn && IsText(s)
    case ValNumber(n) => op != OpIn && Printable(n)
    case ValStringList(ss) => op == OpIn && ss != [] && forall s <- ss :: IsText(s)
    case ValNumberList(ns) => op == OpIn && ns != [] && forall n <- ns :: Printable(n)
  }

  ghost predicate WfExpr(e: Expr) {
    match e
    case Pred(p) => IsName(p.field) && WfValue(p.value, p.op)
    case And(terms) => |terms| >= 2 && forall t <- terms :: WfExpr(t)
    case Or(terms) => |terms| >= 2 && forall t <- terms :: WfExpr(t)
    case Not(inner) => WfExpr(inner)
  }

  predicate WfDuration(d: Duration) {
    1 <= d.count <= 9223372036854775807 && d.unit in {'s', 'm', 'h', 'd', 'w'}
  }

  ghost predicate WfQuery(q: Query) {
    && IsName(q.metric)
    && (forall g <- q.groupBy :: IsName(g))
    && (q.filter.Some? ==> WfExpr(q.filter.value))
    && (q.over.Some? ==> WfDuration(q.over.value))
    && (q.step.Some? ==> WfDuration(q.step.value))
    && (q.orderBy.Some? ==> IsName(q.orderBy.value.field))
    && (q.limit.Some? ==> 0 <= q.limit.value <= 9223372036854775807)
  }

  // ---- From a tree to a derivation, with as few parentheses as possible ----

  function NameTok(s: string): Tok {
    Tok(TokIdent, s)
  }

  function OpTok(op: Op): Tok {
    match op
    case OpEq => Tok(TokEq, "=")
    case OpNe => Tok(TokNe, "!=")
    case OpLt => Tok(TokLt, "<")
    case OpLe => Tok(TokLe, "<=")
    case OpGt => Tok(TokGt, ">")
    case OpGe => Tok(TokGe, ">=")
    case OpIn => Kw("in")
    case OpContains => Kw("contains")
    case OpMatches => Kw("matches")
  }

  ghost function NumTok(n: real): Tok
    requires Printable(n)
  {
    Tok(if ScaleOf(n).0 == 0 then TokInt else TokNumber, NumberText(n))
  }

  ghost function NumToks(ns: seq<real>): seq<Tok>
    requires forall n <- ns :: Printable(n)
  {
    if ns == [] then [] else [NumTok(ns[0])] + NumToks(ns[1..])
  }

  function TextToks(kind: TokenKind, ss: seq<string>): seq<Tok> {
    if ss == [] then [] else [Tok(kind, ss[0])] + TextToks(kind, ss[1..])
  }

  ghost function ValueForm(v: Value, op: Op): ValueC
    requires WfValue(v, op)
  {
    match v
    case ValString(s) => ScalarC(Tok(TokString, s))
    case ValNumber(n) => ScalarC(NumTok(n))
    case ValStringList(ss) => ListC(TextToks(TokString, ss))
    case ValNumberList(ns) => ListC(NumToks(ns))
  }

  ghost function OrForm(e: Expr): ExprC
    requires WfExpr(e)
    decreases e, if e.Or? then 0 else if e.And? then 1 else if e.Not? then 2 else 3
  {
    if e.Or? then OrChain(e.terms) else LastOr(AndForm(e))
  }

  ghost function OrChain(es: seq<Expr>): ExprC
    requires es != [] && forall e <- es :: WfExpr(e)
    decreases es, 0
  {
    if |es| == 1 then LastOr(AndForm(es[0])) else MoreOr(AndForm(es[0]), OrChain(es[1..]))
  }

  ghost function AndForm(e: Expr): AndC
    requires WfExpr(e)
    decreases e, if e.Or? then 3 else if e.And? then 0 else if e.Not? then 1 else 2
  {
    if e.And? then AndChain(e.terms) else LastAnd(UnaryForm(e))
  }

  ghost function AndChain(es: seq<Expr>): AndC
    requires es != [] && forall e <- es :: WfExpr(e)
    decreases es, 0
  {
    if |es| == 1 then LastAnd(UnaryForm(es[0])) else MoreAnd(UnaryForm(es[0]), AndChain(es[1..]))
  }

  ghost function UnaryForm(e: Expr): UnaryC
    requires WfExpr(e)
    decreases e, if e.Or? then 2 else if e.And? then 3 else if e.Not? then 0 else 1
  {
    if e.Not? then Negated(TermForm(e.inner)) else Plain(TermForm(e))
  }

  ghost function TermForm(e: Expr): TermC
    requires WfExpr(e)
    decreases e, if e.Or? then 1 else if e.And? then 2 else if e.Not? then 3 else 0
  {
    if e.Pred? then PredC(NameTok(e.p.field), OpTok(e.p.op), ValueForm(e.p.value, e.p.op)) else GroupC(OrForm(e))
  }

  function DurationTok(d: Duration): Tok
    requires WfDuration(d)
  {
    Tok(TokDuration, Digits(d.count) + [d.unit])
  }

  function LimitTok(n: int): Tok
    requires 0 <= n
  {
    Tok(TokInt, Digits(n))
  }

  ghost function QueryForm(q: Query): QueryC
    requires WfQuery(q)
  {
    QueryC(
      NameTok(q.metric),
      TextToks(TokIdent, q.groupBy),
      if q.filter.Some? then Some(OrForm(q.filter.value)) else None,
      if q.over.Some? then Some(DurationTok(q.over.value)) else None,
      if q.step.Some? then Some(DurationTok(q.step.value)) else None,
      if q.orderBy.Some? then Some(OrderC(NameTok(q.orderBy.value.field), Some(q.orderBy.value.direction))) else None,
      if q.limit.Some? then Some(LimitTok(q.limit.value)) else None)
  }

  // ---- From tokens to text ----

  function TextOf(t: Tok): string {
    if t.kind == TokString then "'" + t.value + "'" else t.value
  }

  function TextsOf(ts: seq<Tok>): (texts: seq<string>)
    ensures |texts| == |ts|
    ensures forall i :: 0 <= i < |ts| ==> texts[i] == TextOf(ts[i])
  {
    seq(|ts|, i requires 0 <= i < |ts| => TextOf(ts[i]))
  }

  ghost function Print(q: Query): string
    requires WfQuery(q)
  {
    Join(TextsOf(Yield(QueryForm(q))), " ")
  }

  ghost predicate Spelled(t: Tok) {
    Spells(TextOf(t), t)
  }

  ghost predicate AllSpelled(ts: seq<Tok>) {
    forall t <- ts :: Spelled(t)
  }

  // ---- The derivation stands for the tree and can be spelled ----

  lemma KeywordSpelled(w: string)
    requires w in KEYWORDS
    ensures Spelled(Kw(w))
  {
    KeywordLetters(w);
    LettersSpelled(w);
  }

  lemma KeywordLetters(w: string)
    requires w in KEYWORDS
    ensures w != "" && forall i :: 0 <= i < |w| ==> 'a' <= w[i] <= 'z'
  {
  }

  lemma LettersSpelled(w: string)
    requires w != "" && forall i :: 0 <= i < |w| ==> 'a' <= w[i] <= 'z'
    ensures IsWord(w) && Folded(w) == w
  {
  }

  lemma OpForm(op: Op)
    ensures OpOf(OpTok(op)) == Some(op) && Spelled(OpTok(op))
  {
    if op.OpIn? || op.OpContains? || op.OpMatches? {
      KeywordSpelled(OpTok(op).value);
    }
  }

  lemma NumForm(n: real)
    requires Printable(n)
    ensures NumberItem(NumTok(n)) == Some(n) && StringItem(NumTok(n)) == None
    ensures Spelled(NumTok(n))
  {
    hide FloatLimit, ParseFloat;
    ParseFloatOfText(n);
    var (k, m) := ScaleOf(n);
    if k > 0 {
      DotTextDotted(k, m);
    }
  }

  lemma DotTextDotted(k: nat, m: nat)
    ensures exists j: nat :: IsDotted(DotText(k, m), j)
  {
    hide IsDotted;
    var d := Zeros(k) + Digits(m);
    SplitDotted(d[..|d| - k], d[|d| - k..]);
    assert IsDotted(DotText(k, m), |d[..|d| - k]|);
  }

  lemma SplitDotted(a: string, b: string)
    requires a != "" && AllDigits(a) && AllDigits(b)
    ensures IsDotted(a + "." + b, |a|)
  {
    var s := a + "." + b;
    assert s[..|a|] == a && s[|a| + 1..] == b;
  }

  lemma {:induction false} NumForms(ns: seq<real>)
    requires forall n <- ns :: Printable(n)
    ensures AllItems(NumToks(ns), NumberItem) && Items(NumToks(ns), NumberItem) == ns
    ensures AllSpelled(NumToks(ns))
    ensures |NumToks(ns)| == |ns|
  {
    hide Spelled, NumTok, Printable;
    if ns != [] {
      NumForm(ns[0]);
      NumForms(ns[1..]);
      assert NumToks(ns)[1..] == NumToks(ns[1..]);
    }
  }

  lemma {:induction false} StringForms(ss: seq<string>)
    requires forall s <- ss :: IsText(s)
    ensures AllItems(TextToks(TokString, ss), StringItem) && Items(TextToks(TokString, ss), StringItem) == ss
    ensures AllSpelled(TextToks(TokString, ss))
    ensures |TextToks(TokString, ss)| == |ss|
  {
    hide Spelled, IsText;
    if ss != [] {
      StringForms(ss[1..]);
      assert TextToks(TokString, ss)[1..] == TextToks(TokString, ss[1..]);
      assert ss[0] in ss;
      TextSpelled(ss[0]);
    }
  }

  lemma TextSpelled(s: string)
    requires IsText(s)
    ensures Spelled(Tok(TokString, s))
  {
  }

  lemma {:induction false} NameForms(ss: seq<string>)
    requires forall s <- ss :: IsName(s)
    ensures AllItems(TextToks(TokIdent, ss), IdentItem) && Items(TextToks(TokIdent, ss), IdentItem) == ss
    ensures AllSpelled(TextToks(TokIdent, ss))
    ensures |TextToks(TokIdent, ss)| == |ss|
  {
    hide IsName, Spelled;
    if ss != [] {
      NameForms(ss[1..]);
      assert TextToks(TokIdent, ss)[1..] == TextToks(TokIdent, ss[1..]);
      assert ss[0] in ss;
      NameSpelled(ss[0]);
    }
  }

  lemma {:induction false} ListSpelled(items: seq<Tok>)
    requires AllSpelled(items)
    ensures AllSpelled(YieldList(items))
  {
    hide Spelled;
    if |items| > 1 {
      ListSpelled(items[1..]);
      CommaSpelled();
    }
  }

  lemma CommaSpelled()
    ensures Spelled(COMMA) && Spelled(LPAREN) && Spelled(RPAREN)
  {
  }

  lemma ValueFormed(v: Value, op: Op)
    requires WfValue(v, op)
    ensures ValidValue(ValueForm(v, op), op) && ValueOf(ValueForm(v, op), op) == v
    ensures AllSpelled(YieldValue(ValueForm(v, op)))
  {
    hide NumTok, Printable, ParseFloat, Items, YieldList;
    CommaSpelled();
    match v
    case ValString(s) =>
    case ValNumber(n) => NumForm(n);
    case ValStringList(ss) =>
      StringForms(ss);
      ListSpelled(TextToks(TokString, ss));
    case ValNumberList(ns) =>
      NumForms(ns);
      NumbersAreNotStrings(NumToks(ns));
      ListSpelled(NumToks(ns));
  }

  // The three facts wanted of the derivation c of e.
  ghost predicate FormsExpr(c: ExprC, e: Expr) {
    ValidExpr(c) && ExprOf(c) == e && AllSpelled(YieldExpr(c))
  }

  ghost predicate FormsAnd(c: AndC, e: Expr) {
    ValidAnd(c) && AndNode(Conjuncts(c)) == e && AllSpelled(YieldAnd(c))
  }

  ghost predicate FormsUnary(c: UnaryC, e: Expr) {
    ValidTerm(c.t) && UnaryOf(c) == e && AllSpelled(YieldUnary(c))
  }

  ghost predicate FormsTerm(c: TermC, e: Expr) {
    ValidTerm(c) && TermOf(c) == e && AllSpelled(YieldTerm(c))
  }

  lemma {:induction false} OrFormed(e: Expr)
    requires WfExpr(e)
    ensures FormsExpr(OrForm(e), e)
    decreases e, if e.Or? then 0 else if e.And? then 1 else if e.Not? then 2 else 3
  {
    hide Spelled;
    if e.Or? {
      OrChained(e.terms);
    } else {
      AndFormed(e);
      assert Alternatives(OrForm(e)) == [e];
    }
  }

  lemma {:induction false} OrChained(es: seq<Expr>)
    requires es != [] && forall e <- es :: WfExpr(e)
    ensures ValidExpr(OrChain(es)) && Alternatives(OrChain(es)) == es && AllSpelled(YieldExpr(OrChain(es)))
    decreases es, 0
  {
    hide Spelled;
    AndFormed(es[0]);
    if |es| > 1 {
      OrChained(es[1..]);
      KeywordSpelled("or");
    }
  }

  lemma {:induction false} AndFormed(e: Expr)
    requires WfExpr(e)
    ensures FormsAnd(AndForm(e), e)
    decreases e, if e.Or? then 3 else if e.And? then 0 else if e.Not? then 1 else 2
  {
    hide Spelled;
    if e.And? {
      AndChained(e.terms);
    } else {
      UnaryFormed(e);
    }
  }

  lemma {:induction false} AndChained(es: seq<Expr>)
    requires es != [] && forall e <- es :: WfExpr(e)
    ensures ValidAnd(AndChain(es)) && Conjuncts(AndChain(es)) == es && AllSpelled(YieldAnd(AndChain(es)))
    decreases es, 0
  {
    hide Spelled;
    UnaryFormed(es[0]);
    if |es| > 1 {
      AndChained(es[1..]);
      KeywordSpelled("and");
    }
  }

  lemma {:induction false} UnaryFormed(e: Expr)
    requires WfExpr(e)
    ensures FormsUnary(UnaryForm(e), e)
    decreases e, if e.Or? then 2 else if e.And? then 3 else if e.Not? then 0 else 1
  {
    hide Spelled;
    if e.Not? {
      TermFormed(e.inner);
      KeywordSpelled("not");
    } else {
      TermFormed(e);
    }
  }

  lemma {:induction false} TermFormed(e: Expr)
    requires WfExpr(e)
    ensures FormsTerm(TermForm(e), e)
    decreases e, if e.Or? then 1 else if e.And? then 2 else if e.Not? then 3 else 0
  {
    if e.Pred? {
      PredFormed(e);
    } else {
      hide Spelled;
      OrFormed(e);
      CommaSpelled();
    }
  }

  lemma PredFormed(e: Expr)
    requires e.Pred? && WfExpr(e)
    ensures FormsTerm(TermForm(e), e)
  {
    hide ValueForm, YieldValue, ValueOf, ValidValue, OpTok, OpOf;
    ValueFormed(e.p.value, e.p.op);
    OpForm(e.p.op);
    assert Spelled(NameTok(e.p.field));
  }

  lemma DurationFormed(d: Duration)
    requires WfDuration(d)
    ensures DurationItem(DurationTok(d)) == Some(d) && Spelled(DurationTok(d))
  {
    hide Digits, Decimal.Value;
    ValueOfDigits(d.count);
    var v := DurationTok(d).value;
    assert v[..|v| - 1] == Digits(d.count);
  }

  lemma LimitFormed(n: int)
    requires 0 <= n <= MAX_INT64
    ensures LimitItem(LimitTok(n)) == Some(n) && Spelled(LimitTok(n))
  {
    ValueOfDigits(n);
  }

  lemma FilterFormed(q: Query)
    requires WfQuery(q)
    ensures var f := QueryForm(q).filter;
            && (f.Some? ==> ValidExpr(f.value))
            && (if f.Some? then Some(ExprOf(f.value)) else None) == q.filter
            && AllSpelled(YieldFilter(f))
  {
    hide Spelled, OrForm, YieldExpr, Alternatives;
    if q.filter.Some? {
      OrFormed(q.filter.value);
      KeywordSpelled("where");
    }
  }

  lemma TrailerFormed(q: Query)
    requires WfQuery(q)
    ensures var c := QueryForm(q);
            && (c.over.Some? ==> DurationItem(c.over.value).Some?)
            && (c.step.Some? ==> DurationItem(c.step.value).Some?)
            && (c.limit.Some? ==> LimitItem(c.limit.value).Some?)
            && Convert(c.over, DurationItem) == q.over
            && Convert(c.step, DurationItem) == q.step
            && Convert(c.limit, LimitItem) == q.limit
    ensures AllSpelled(YieldTrailer(QueryForm(q)))
  {
    hide Spelled, DurationItem, LimitItem, DurationTok, LimitTok;
    if q.over.Some? { DurationFormed(q.over.value); }
    if q.step.Some? { DurationFormed(q.step.value); }
    if q.limit.Some? { LimitFormed(q.limit.value); }
    if q.orderBy.Some? { NameSpelled(q.orderBy.value.field); }
    KeywordSpelled("over");
    KeywordSpelled("step");
    KeywordSpelled("order");
    KeywordSpelled("by");
    KeywordSpelled("asc");
    KeywordSpelled("desc");
    KeywordSpelled("limit");
  }

  lemma NameSpelled(s: string)
    requires IsName(s)
    ensures Spelled(NameTok(s))
  {
  }

  lemma QueryFormed(q: Query)
    requires WfQuery(q)
    ensures ValidQuery(QueryForm(q)) && TreeOf(QueryForm(q)) == q
    ensures AllSpelled(Yield(QueryForm(q)))
  {
    hide Spelled, YieldFilter, YieldTrailer, ValidExpr, Convert, Items, ExprOf, YieldList, OrForm;
    NameSpelled(q.metric);
    NameForms(q.groupBy);
    ListSpelled(TextToks(TokIdent, q.groupBy));
    KeywordSpelled("by");
    FilterFormed(q);
    TrailerFormed(q);
  }

  lemma AllSpelledTexts(ts: seq<Tok>)
    requires AllSpelled(ts)
    ensures SpellAll(TextsOf(ts), ts)
  {
    hide Spells;
    forall i | 0 <= i < |ts|
      ensures Spells(TextsOf(ts)[i], ts[i])
    {
      assert ts[i] in ts && Spelled(ts[i]);
    }
  }

  // Lexing and parsing the printed text gives the query back.
  lemma PrintThenParse(q: Query)
    requires WfQuery(q)
    ensures Parses(Print(q), Accepted(q))
  {
    hide LexAt, Yield, QueryForm, TreeOf, PQuery;
    var c := QueryForm(q);
    var ts := Yield(c);
    QueryFormed(q);
    DerivationParses(c);
    AllSpelledTexts(ts);
    JoinedLex(TextsOf(ts), ts, 0);
    var toks := LexAt(Print(q), 0).toks;
    assert |toks| == |ts| + 1;
    assert Body(toks) == ts by {
      assert forall i :: 0 <= i < |ts| ==> Body(toks)[i] == Bare(toks)[i];
    }
  }

  // ---- The parser produces no other trees ----

  // What the spelling rules say about the tokens a tree takes its text from.
  predicate Readable(t: Tok) {
    && (t.kind == TokIdent ==> IsName(t.value))
    && (t.kind == TokString ==> IsText(t.value))
    && (t.kind == TokDuration ==> t.value != "" && t.value[|t.value| - 1] in {'s', 'm', 'h', 'd', 'w'})
  }

  predicate AllReadable(ts: seq<Tok>) {
    forall t <- ts :: Readable(t)
  }

  lemma SpellingReadable(text: string, t: Tok)
    requires Spells(text, t)
    ensures Readable(t) && Canonical(t)
  {
    if t.kind == TokIdent {
      assert forall i :: 0 <= i < |text| ==> t.value[i] == LowerChar(text[i]);
      assert Folded(t.value) == t.value;
    }
  }

  lemma {:induction false} OrsWf(c: ExprC)
    requires ValidExpr(c) && AllReadable(YieldExpr(c))
    ensures forall e <- Alternatives(c) :: WfExpr(e)
    ensures WfExpr(ExprOf(c))
    decreases c, 1
  {
    hide Readable;
    assert AllReadable(YieldAnd(c.a));
    AndsWf(c.a);
    if c.MoreOr? {
      OrsWf(c.more);
    }
  }

  lemma {:induction false} AndsWf(c: AndC)
    requires ValidAnd(c) && AllReadable(YieldAnd(c))
    ensures forall e <- Conjuncts(c) :: WfExpr(e)
    ensures WfExpr(AndNode(Conjuncts(c)))
    decreases c, 1
  {
    hide Readable;
    assert AllReadable(YieldTerm(c.u.t)) by {
      assert AllReadable(YieldUnary(c.u));
    }
    TermWf(c.u.t);
    if c.MoreAnd? {
      AndsWf(c.more);
    }
  }

  lemma {:induction false} TermWf(c: TermC)
    requires ValidTerm(c) && AllReadable(YieldTerm(c))
    ensures WfExpr(TermOf(c))
    decreases c, 0
  {
    match c
    case GroupC(e) => OrsWf(e);
    case PredC(field, op, value) =>
      assert AllReadable(YieldValue(value));
      ValueWf(value, OpOf(op).value);
      assert field in YieldTerm(c);
  }

  lemma ValueWf(v: ValueC, op: Op)
    requires ValidValue(v, op) && AllReadable(YieldValue(v))
    ensures WfValue(ValueOf(v, op), op)
  {
    hide Printable, ParseFloat, YieldList;
    match v
    case ScalarC(t) =>
      assert t in YieldValue(v);
      NumberItemPrintable(t);
    case ListC(items) =>
      forall t <- items ensures Readable(t) {
        InYieldList(items, t);
        assert t in YieldValue(v);
      }
      if AllItems(items, StringItem) {
        StringsWf(items);
      } else {
        NumbersWf(items);
      }
  }

  lemma {:induction false} InYieldList(items: seq<Tok>, t: Tok)
    requires t in items
    ensures t in YieldList(items)
  {
    if |items| > 1 && t != items[0] {
      assert t in items[1..];
      InYieldList(items[1..], t);
    }
  }

  lemma NumberItemPrintable(t: Tok)
    ensures NumberItem(t).Some? ==> Printable(NumberItem(t).value)
  {
    if NumberItem(t).Some? {
      ParsedIsPrintable(t.value);
    }
  }

  lemma {:induction false} StringsWf(items: seq<Tok>)
    requires AllItems(items, StringItem) && AllReadable(items)
    ensures forall s <- Items(items, StringItem) :: IsText(s)
    ensures |Items(items, StringItem)| == |items|
  {
    if items != [] {
      assert items[0] in items;
      StringsWf(items[1..]);
    }
  }

  lemma {:induction false} NumbersWf(items: seq<Tok>)
    requires AllItems(items, NumberItem)
    ensures forall n <- Items(items, NumberItem) :: Printable(n)
    ensures |Items(items, NumberItem)| == |items|
  {
    hide Printable, NumberItem;
    if items != [] {
      NumberItemPrintable(items[0]);
      NumbersWf(items[1..]);
    }
  }

  lemma {:induction false} NamesWf(items: seq<Tok>)
    requires AllItems(items, IdentItem) && AllReadable(items)
    ensures forall s <- Items(items, IdentItem) :: IsName(s)
  {
    if items != [] {
      assert items[0] in items;
      NamesWf(items[1..]);
    }
  }

  lemma DerivedWf(c: QueryC)
    requires ValidQuery(c) && AllReadable(Yield(c))
    ensures WfQuery(TreeOf(c))
  {
    hide IsName, Printable, YieldExpr, YieldList;
    var ts := Yield(c);
    assert c.metric in ts;
    forall t <- c.groupBy ensures Readable(t) {
      InYieldList(c.groupBy, t);
      assert t in YieldBy(c.groupBy);
      assert t in ts;
    }
    NamesWf(c.groupBy);
    if c.filter.Some? {
      assert forall t <- YieldExpr(c.filter.value) :: t in YieldFilter(c.filter);
      assert forall t <- YieldFilter(c.filter) :: t in ts;
      OrsWf(c.filter.value);
    }
    TrailerWf(c, ts);
  }

  lemma DurationWf(t: Tok)
    requires DurationItem(t).Some? && Readable(t)
    ensures WfDuration(DurationItem(t).value)
  {
  }

  lemma TrailerWf(c: QueryC, ts: seq<Tok>)
    requires ValidQuery(c) && ts == Yield(c) && AllReadable(ts)
    ensures c.over.Some? ==> WfDuration(TreeOf(c).over.value)
    ensures c.step.Some? ==> WfDuration(TreeOf(c).step.value)
    ensures c.orderBy.Some? ==> IsName(TreeOf(c).orderBy.value.field)
    ensures c.limit.Some? ==> 0 <= TreeOf(c).limit.value <= MAX_INT64
  {
    hide IsName, YieldFilter, YieldBy, ValidExpr, WfDuration, DurationItem, LimitItem, Items, ExprOf, AllItems;
    InTrailer(c);
    if c.over.Some? { DurationWf(c.over.value); }
    if c.step.Some? { DurationWf(c.step.value); }
    if c.limit.Some? { LimitWf(c.limit.value); }
  }

  lemma LimitWf(t: Tok)
    requires LimitItem(t).Some?
    ensures 0 <= LimitItem(t).value <= MAX_INT64
  {
  }

  lemma InTrailer(c: QueryC)
    ensures c.over.Some? ==> c.over.value in Yield(c)
    ensures c.step.Some? ==> c.step.value in Yield(c)
    ensures c.orderBy.Some? ==> c.orderBy.value.field in Yield(c)
  {
    hide YieldFilter, YieldBy;
    assert forall t <- YieldTrailer(c) :: t in Yield(c);
    if c.over.Some? { assert c.over.value in YieldWord("over", c.over); }
    if c.step.Some? { assert c.step.value in YieldWord("step", c.step); }
    if c.orderBy.Some? { assert c.orderBy.value.field in YieldOrder(c.orderBy); }
  }

  // Every query parsed from a text can be printed, and the printed text
  // parses to the same query.
  lemma ParsedCanBePrinted(input: string, q: Query)
    requires Parses(input, Accepted(q)) && AsciiWords(input)
    ensures WfQuery(q) && Parses(Print(q), Accepted(q))
  {
    hide LexAt, PQuery, Spells, WfQuery, Yield, TreeOf, ValidQuery;
    var toks := LexAt(input, 0).toks;
    var ts := Body(toks);
    LexTilesInput(input);
    TilesSpelled(input, 0, toks);
    forall t <- ts ensures Readable(t) && Canonical(t) {
      var i :| 0 <= i < |ts| && ts[i] == t;
      SpellingReadable(SpanTexts(input, toks[..|toks| - 1])[i], t);
    }
    var c := QueryDerived(ts);
    DerivedWf(c);
    PrintThenParse(q);
  }
}
