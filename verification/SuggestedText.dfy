// The completer's promise on texts: typing a suggestion behind a text that can
// still become a query leaves a text that can still become a query.

module SuggestedText {
  import opened Options
  import opened Strings
  import opened Decimal
  import opened NetqlTypes
  import opened Lexer
  import opened LexerProps
  import opened ParserSpec
  import opened MetricRegistry
  import A = Automaton
  import C = Autocomplete
  import P = AutocompleteProps
  import Parser
  import RoundTrip

  // ---- Lexing a text with more behind it ----

  function Longer(s: string, b: string): (t: string)
    ensures |t| == |s| + 1 + |b| && t[|s|] == ' ' && t[|s| + 1..] == b
    ensures forall i :: 0 <= i < |s| ==> t[i] == s[i]
    ensures forall n :: 0 <= n <= |s| ==> t[..n] == s[..n]
  {
    s + " " + b
  }

  lemma LongerDrop(s: string, b: string, n: nat)
    requires n <= |s|
    ensures Longer(s, b)[n..] == Longer(s[n..], b)
  {
  }

  // A run of characters that excludes the space ends where it ended.
  lemma SpanLonger(s: string, b: string, p: char -> bool)
    requires !p(' ')
    ensures Span(Longer(s, b), p) == Span(s, p)
  {
    SpanUnique(Longer(s, b), p, Span(s, p));
  }

  lemma StringLonger(s: string, b: string)
    requires s != "" && ScanString(s).Found?
    ensures ScanString(Longer(s, b)) == ScanString(s)
  {
    var n := Span(s[1..], NotQuoteFn());
    LongerDrop(s, b, 1);
    SpanUnique(Longer(s[1..], b), NotQuoteFn(), n);
    assert Longer(s[1..], b)[..n] == s[1..][..n];
    assert Longer(s, b)[1..1 + n] == Longer(s, b)[1..][..n] && s[1..1 + n] == s[1..][..n];
  }

  lemma NumberLonger(s: string, b: string)
    requires s != ""
    ensures ScanNumber(Longer(s, b)) == ScanNumber(s)
  {
    var t, k := Longer(s, b), Span(s, IsDigitFn());
    SpanLonger(s, b, IsDigitFn());
    assert HasDot(t) <==> HasDot(s);
    if HasDot(s) {
      LongerDrop(s, b, k + 1);
      SpanLonger(s[k + 1..], b, IsDigitFn());
    }
    assert NumberLength(t) == NumberLength(s);
  }

  lemma WordLonger(s: string, b: string)
    ensures ScanWord(Longer(s, b)) == ScanWord(s)
  {
    SpanLonger(s, b, IsIdentFn());
  }

  lemma TokenLonger(s: string, b: string)
    requires s != "" && ScanToken(s).Found?
    ensures ScanToken(Longer(s, b)) == ScanToken(s)
  {
    hide ScanString, ScanNumber, ScanWord, Longer;
    var t := Longer(s, b);
    assert t[0] == s[0] && (if |s| > 1 then t[1] == s[1] else t[1] == ' ');
    var c := s[0];
    if c == '\'' {
      StringLonger(s, b);
    } else if IsDigit(c) {
      NumberLonger(s, b);
    } else if IsIdentStart(c) {
      WordLonger(s, b);
    }
  }

  // White space in front is skipped.
  lemma LexBehindBlanks(blanks: string, b: string, at: nat)
    requires Blank(blanks)
    ensures LexAt(blanks + b, at) == LexAt(b, at + |blanks|)
  {
    hide ScanToken, LexAt;
    var s := blanks + b;
    SpanUnique(s, IsSpaceFn(), |blanks| + Skip(b));
    assert s[Skip(s)..] == b[Skip(b)..];
    if Skip(b) == |b| {
      LexEnd(b, at + |blanks|);
      LexEnd(s, at);
    } else {
      LexFirst(b, at + |blanks|);
      LexFirst(s, at);
    }
  }

  // The tokens of a text, EOF aside.
  function Tokens(s: string, at: nat): seq<Token>
    requires LexAt(s, at).LexOk? && LexAt(s, at).toks != []
  {
    LexAt(s, at).toks[..|LexAt(s, at).toks| - 1]
  }

  // Lexing a text, a space and more is lexing the text and then the rest.
  lemma {:induction false} LexLonger(a: string, b: string, at: nat)
    requires LexAt(a, at).LexOk?
    ensures LexAt(a, at).toks != []
    ensures LexAt(Longer(a, b), at) == Prepend(Tokens(a, at), LexAt(b, at + |a| + 1))
    decreases |a|
  {
    hide ScanToken, Longer, LexAt, Prepend;
    var w := Skip(a);
    if w == |a| {
      BlankLonger(a, b, at);
    } else {
      var rest := a[w..];
      LexFirst(a, at);
      var n := ScanToken(rest).len;
      ScanLength(rest);
      LexLonger(rest[n..], b, at + w + n);
      FirstLonger(a, b, at);
      var t, more := Token(ScanToken(rest).tok, at + w), LexAt(rest[n..], at + w + n);
      assert LexAt(a, at).toks == [t] + more.toks;
      assert Tokens(a, at) == [t] + Tokens(rest[n..], at + w + n);
      BeforePrepend(t, Tokens(rest[n..], at + w + n), LexAt(b, at + |a| + 1));
    }
  }

  lemma BeforePrepend(t: Token, ts: seq<Token>, r: LexResult)
    ensures Before(t, Prepend(ts, r)) == Prepend([t] + ts, r)
  {
    if r.LexOk? {
      assert [t] + (ts + r.toks) == [t] + ts + r.toks;
    }
  }

  lemma BlankLonger(a: string, b: string, at: nat)
    requires Skip(a) == |a|
    ensures LexAt(a, at) == LexOk([Token(EOF, at + |a|)])
    ensures LexAt(Longer(a, b), at) == Prepend([], LexAt(b, at + |a| + 1))
  {
    hide ScanToken, LexAt;
    LexEnd(a, at);
    LexBehindBlanks(a + " ", b, at);
    assert Longer(a, b) == a + " " + b;
    var r := LexAt(b, at + |a| + 1);
    assert r.LexOk? ==> [] + r.toks == r.toks;
  }

  lemma FirstLonger(a: string, b: string, at: nat)
    requires LexAt(a, at).LexOk? && Skip(a) < |a|
    ensures var w := Skip(a);
            var rest := a[w..];
            && ScanToken(rest).Found? && ScanToken(rest).len <= |rest|
            && var n := ScanToken(rest).len;
               LexAt(Longer(a, b), at) == Before(Token(ScanToken(rest).tok, at + w), LexAt(Longer(rest[n..], b), at + w + n))
  {
    hide ScanToken, Longer, LexAt, Before;
    var w, t := Skip(a), Longer(a, b);
    var rest := a[w..];
    LexFirst(a, at);
    SkipLonger(a, b);
    LongerDrop(a, b, w);
    TokenLonger(rest, b);
    LongerDrop(rest, b, ScanToken(rest).len);
    LexFirst(t, at);
  }

  lemma SkipLonger(a: string, b: string)
    requires Skip(a) < |a|
    ensures Skip(Longer(a, b)) == Skip(a)
  {
    SpanUnique(Longer(a, b), IsSpaceFn(), Skip(a));
  }

  // ---- Suggestions and completions can be typed ----

  lemma WordTyped(x: string)
    requires x in KEYWORDS
    ensures Spells(x, P.TokenFor(x))
  {
    P.KeywordToken(x);
    RoundTrip.KeywordSpelled(x);
  }

  lemma PunctuationTyped(x: string)
    requires x in {"=", "!=", "<", "<=", ">", ">="}
    ensures Spells(x, P.TokenFor(x))
  {
    assert (x + " ")[0] == x[0];
    assert |x| == 1 ==> (x + " ")[1] == ' ';
  }

  lemma SuggestionTyped(o: C.Offer, metrics: Metrics, x: string)
    requires P.Typeable(metrics) && x in C.Texts(o, metrics)
    requires o.GroupFields? || o.OrderFields? || o.FilterFields? ==>
               && RoundTrip.IsName(o.spec.name)
               && (forall f <- o.spec.groupBy :: RoundTrip.IsName(f)) && (forall f <- o.spec.filter :: RoundTrip.IsName(f))
    requires o.Word? ==> o.w in KEYWORDS
    ensures Spells(x, P.TokenFor(x))
  {
    hide P.TokenFor, Spells, RoundTrip.IsName;
    match o
    case ClauseWords => WordTyped(x);
    case Operators => if x in KEYWORDS { WordTyped(x); } else { PunctuationTyped(x); }
    case Word(w) => WordTyped(x);
    case AnyMetric => NameTyped(x);
    case _ => NameTyped(x);
  }

  lemma NameTyped(x: string)
    requires RoundTrip.IsName(x)
    ensures Spells(x, P.TokenFor(x))
  {
    P.NameToken(x);
  }

  lemma WordsTyped()
    ensures RoundTrip.Spelled(A.WORD) && RoundTrip.Spelled(A.TEXT)
  {
  }

  lemma NumbersTyped()
    ensures RoundTrip.Spelled(A.ONE) && RoundTrip.Spelled(A.HOUR)
  {
    assert A.HOUR.value[..1] == "1";
  }

  lemma SignsTyped()
    ensures RoundTrip.Spelled(Tok(TokEq, "=")) && RoundTrip.Spelled(Tok(TokLParen, "(")) && RoundTrip.Spelled(Tok(TokRParen, ")"))
  {
  }

  lemma HintTyped(s: A.State)
    ensures RoundTrip.Spelled(A.Hint(s))
  {
    hide RoundTrip.Spelled;
    WordsTyped();
    NumbersTyped();
    SignsTyped();
    RoundTrip.KeywordSpelled("by");
  }

  lemma {:induction false} CompletionTyped(s: A.State)
    ensures RoundTrip.AllSpelled(A.Completion(s))
    decreases A.Distance(s)
  {
    hide A.Step, A.Accepting, A.Hint, A.Distance, RoundTrip.Spelled;
    if !A.Accepting(s) {
      A.HintHelps(s);
      HintTyped(s);
      CompletionTyped(A.Step(s, A.Hint(s)).value);
    }
  }

  // ---- The promise ----

  // The tokens of a text that lexes, as the parser sees them.
  function Read(s: string): seq<Tok>
    requires LexAt(s, 0).LexOk?
  {
    if LexAt(s, 0).toks == [] then [] else Parser.Body(LexAt(s, 0).toks)
  }

  // Some text behind s makes it a query.
  ghost predicate Continues(s: string) {
    exists more: string, q: Query :: Parser.Parses(s + more, Parser.Accepted(q))
  }

  lemma OneTyped(x: string, t: Tok, at: nat)
    requires Spells(x, t)
    ensures LexAt(x, at).LexOk? && Bare(LexAt(x, at).toks) == [t, EOF]
  {
    hide Spells, LexAt;
    JoinedLex([x], [t], at);
  }

  // Typing x behind a space adds its token.
  lemma TypedToken(prefix: string, x: string, t: Tok)
    requires LexAt(prefix, 0).LexOk? && Spells(x, t)
    ensures LexAt(Longer(prefix, x), 0).LexOk? && Read(Longer(prefix, x)) == Read(prefix) + [t]
  {
    hide LexAt, Spells, Longer;
    LexLonger(prefix, x, 0);
    OneTyped(x, t, |prefix| + 1);
    var us := LexAt(x, |prefix| + 1).toks;
    assert |us| == 2 && Bare(us)[0] == us[0].tok == t;
    assert LexAt(Longer(prefix, x), 0).toks == Tokens(prefix, 0) + us;
    BodyOfBoth(Tokens(prefix, 0), us, [t]);
  }

  // Typing a machine's completion behind a space ends the query.
  lemma TypedCompletion(s: string)
    requires LexAt(s, 0).LexOk? && A.Viable(Read(s))
    ensures Continues(s)
  {
    hide LexAt, Longer, A.Completion, A.Run, A.Accepting, A.Viable, Parser.Parses;
    var ts := Read(s);
    A.ViableIffRuns(ts);
    var st := A.Run(A.NeedMetric, ts).value;
    var cs := A.Completion(st);
    CompletionTyped(st);
    var texts := RoundTrip.TextsOf(cs);
    RoundTrip.AllSpelledTexts(cs);
    var more := Join(texts, " ");
    JoinedLex(texts, cs, |s| + 1);
    LexLonger(s, more, 0);
    BodyOfBoth(Tokens(s, 0), LexAt(more, |s| + 1).toks, cs);
    assert Read(Longer(s, more)) == ts + cs;
    A.CompletionRuns(st);
    A.RunAppend(A.NeedMetric, ts, cs);
    A.AcceptsIffRuns(ts + cs);
    Accepts(Longer(s, more));
    LongerIs(s, more);
  }

  lemma LongerIs(s: string, b: string)
    ensures Longer(s, b) == s + (" " + b)
  {
  }

  lemma BodyOfBoth(a: seq<Token>, us: seq<Token>, cs: seq<Tok>)
    requires Bare(us) == cs + [EOF]
    ensures a + us != [] && Parser.Body(a + us) == Bare(a) + cs
  {
    assert |us| == |cs| + 1;
    assert (a + us)[..|a| + |cs|] == a + us[..|cs|];
    assert Bare(us[..|cs|]) == Bare(us)[..|cs|] == cs;
  }

  lemma Accepts(s: string)
    requires LexAt(s, 0).LexOk? && ParseTokens(Read(s)).Parsed?
    ensures Parser.Parses(s, Parser.Accepted(ParseTokens(Read(s)).val))
  {
    hide LexAt, PQuery;
    LexLonger(s, "", 0);
  }

  // Behind a text that lexes, and whose tokens some continuation makes a
  // query, typing a space and any suggestion adds exactly the suggestion's
  // token, and some continuation of that text is a query.
  lemma SuggestionContinues(prefix: string, metrics: Metrics, x: string)
    requires P.Typeable(metrics) && LexAt(prefix, 0).LexOk? && A.Viable(Read(prefix))
    requires |Read(prefix)| >= 2 || (|Read(prefix)| == 1 && C.EndsWithSpace(prefix))
    requires x in C.Texts(C.OfferForText(prefix, metrics), metrics)
    ensures LexAt(Longer(prefix, x), 0).LexOk?
    ensures Read(Longer(prefix, x)) == Read(prefix) + [P.TokenFor(x)]
    ensures Continues(Longer(prefix, x))
  {
    hide LexAt, Longer, A.Viable, P.TokenFor, Spells, Continues, RoundTrip.IsName, C.OfferBehind;
    var ts := Read(prefix);
    var spaced := C.EndsWithSpace(prefix);
    P.SuggestionsStayViable(ts, spaced, metrics, x);
    OfferTypeable(ts, spaced, metrics);
    SuggestionTyped(C.OfferFor(ts, spaced, metrics), metrics, x);
    TypedToken(prefix, x, P.TokenFor(x));
    TypedCompletion(Longer(prefix, x));
  }

  lemma OfferTypeable(ts: seq<Tok>, spaced: bool, metrics: Metrics)
    requires P.Typeable(metrics)
    ensures var o := C.OfferFor(ts, spaced, metrics);
            && (o.GroupFields? || o.OrderFields? || o.FilterFields? ==>
                  && RoundTrip.IsName(o.spec.name)
                  && (forall f <- o.spec.groupBy :: RoundTrip.IsName(f)) && (forall f <- o.spec.filter :: RoundTrip.IsName(f)))
            && (o.Word? ==> o.w in KEYWORDS)
  {
    hide RoundTrip.IsName;
  }
}
