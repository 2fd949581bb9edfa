// What the lexer guarantees: the tokens tile the input, and lexing the token
// texts again, separated by single spaces, gives the same tokens.

module LexerProps {
  import opened Decimal
  import opened Strings
  import opened NetqlTypes
  import opened Lexer

  predicate Blank(s: string) {
    forall i :: 0 <= i < |s| ==> s[i] in {' ', '\t', '\n', '\r'}
  }

  // Source text of a token, up to the case of identifiers and keywords.
  function Width(t: Tok): nat {
    if t.kind == TokString then |t.value| + 2 else |t.value|
  }

  // Lower-casing is modelled on ASCII, so that is where words are spelled.
  predicate Ascii(s: string) {
    forall i :: 0 <= i < |s| ==> s[i] as int < 0x80
  }

  // The words of the language, spelled out: letters, digits and underscores,
  // no digit first; the reserved ones; folding upper case to lower case.
  predicate IsWord(s: string) {
    && s != "" && !('0' <= s[0] <= '9')
    && forall i :: 0 <= i < |s| ==>
         'a' <= s[i] <= 'z' || 'A' <= s[i] <= 'Z' || '0' <= s[i] <= '9' || s[i] == '_'
  }

  const RESERVED: set<string> := {
    "by", "where", "and", "or", "not", "in", "contains", "matches",
    "over", "step", "order", "asc", "desc", "limit"
  }

  function Folded(s: string): (t: string)
    ensures |t| == |s|
    ensures forall i :: 0 <= i < |s| ==>
              t[i] == if 'A' <= s[i] <= 'Z' then "abcdefghijklmnopqrstuvwxyz"[s[i] as int - 'A' as int] else s[i]
  {
    seq(|s|, i requires 0 <= i < |s| =>
      if 'A' <= s[i] <= 'Z' then "abcdefghijklmnopqrstuvwxyz"[s[i] as int - 'A' as int] else s[i])
  }

  // The lexer's lower-casing is that folding.
  lemma LowerFolds(s: string)
    ensures Lower(s) == Folded(s)
  {
    forall i | 0 <= i < |s| ensures Lower(s)[i] == Folded(s)[i] {
      LetterFolds(s[i]);
    }
  }

  lemma LetterFolds(c: char)
    ensures 'A' <= c <= 'Z' ==> LowerChar(c) == "abcdefghijklmnopqrstuvwxyz"[c as int - 'A' as int]
  {
  }

  lemma WordChars(s: string)
    requires s != "" && Ascii(s)
    ensures IsWord(s) <==> IsIdentStart(s[0]) && forall i :: 0 <= i < |s| ==> IsIdentCont(s[i])
  {
    assert forall i :: 0 <= i < |s| ==> s[i] as int < 0x80;
  }

  lemma WordIsAscii(s: string)
    requires IsWord(s)
    ensures Ascii(s)
  {
  }

  predicate AsciiWord(t: Tok) {
    t.kind in {TokIdent, TokKeyword} ==> Ascii(t.value)
  }

  // All identifiers and keywords of the text are ASCII; strings may hold anything.
  predicate AsciiWords(input: string) {
    match LexAt(input, 0)
    case LexErr(_) => true
    case LexOk(ts) => forall i :: 0 <= i < |ts| ==> AsciiWord(ts[i].tok)
  }

  lemma LowerAscii(s: string)
    ensures Ascii(Lower(s)) <==> Ascii(s)
  {
    forall i | 0 <= i < |s| ensures Lower(s)[i] as int < 0x80 <==> s[i] as int < 0x80 {
    }
    if Ascii(Lower(s)) {
      forall i | 0 <= i < |s| ensures s[i] as int < 0x80 {
        assert Lower(s)[i] as int < 0x80;
      }
    }
    if Ascii(s) {
      forall i | 0 <= i < |s| ensures Lower(s)[i] as int < 0x80 {
        assert s[i] as int < 0x80;
      }
    }
  }

  predicate IsInt(s: string) {
    s != "" && AllDigits(s)
  }

  // Digits, a dot at position k, and possibly more digits.
  predicate IsDotted(s: string, k: nat) {
    0 < k < |s| && AllDigits(s[..k]) && s[k] == '.' && AllDigits(s[k + 1..])
  }

  // `text` is a spelling of the token t.
  ghost predicate Spells(text: string, t: Tok) {
    match t.kind
    case TokEOF => false
    case TokIdent => IsWord(text) && t.value == Folded(text) && t.value !in RESERVED
    case TokKeyword => IsWord(text) && t.value == Folded(text) && t.value in RESERVED
    case TokString => text == "'" + t.value + "'" && '\'' !in t.value
    case TokInt => text == t.value && IsInt(text)
    case TokNumber => text == t.value && exists k: nat :: IsDotted(text, k)
    case TokDuration => text == t.value && |text| > 1 && AllDigits(text[..|text| - 1]) && text[|text| - 1] in {'s', 'm', 'h', 'd', 'w'}
    case TokLParen => text == t.value == "("
    case TokRParen => text == t.value == ")"
    case TokComma => text == t.value == ","
    case TokEq => text == t.value == "="
    case TokNe => text == t.value == "!="
    case TokLt => text == t.value == "<"
    case TokLe => text == t.value == "<="
    case TokGt => text == t.value == ">"
    case TokGe => text == t.value == ">="
  }

  lemma ScanSpells(s: string)
    requires s != "" && ScanToken(s).Found? && AsciiWord(ScanToken(s).tok)
    ensures ScanToken(s).len <= |s|
    ensures ScanToken(s).len == Width(ScanToken(s).tok)
    ensures Spells(s[..ScanToken(s).len], ScanToken(s).tok)
  {
    var c := s[0];
    if c == '\'' {
      ScanStringSpells(s);
    } else if IsDigit(c) {
      ScanNumberSpells(s);
    } else if IsIdentStart(c) {
      ScanWordSpells(s);
    }
  }

  lemma ScanStringSpells(s: string)
    requires s != "" && s[0] == '\'' && ScanString(s).Found?
    ensures ScanString(s).len <= |s| && ScanString(s).len == Width(ScanString(s).tok)
    ensures Spells(s[..ScanString(s).len], ScanString(s).tok)
  {
    var n := Span(s[1..], NotQuoteFn());
    assert s[1..][n] == '\'';
    assert s[..n + 2] == "'" + s[1..1 + n] + "'";
    assert forall i :: 0 <= i < n ==> s[1..1 + n][i] == s[1..][i];
  }

  lemma ScanNumberSpells(s: string)
    requires s != "" && IsDigit(s[0])
    ensures ScanNumber(s).len <= |s| && ScanNumber(s).len == Width(ScanNumber(s).tok)
    ensures Spells(s[..ScanNumber(s).len], ScanNumber(s).tok)
  {
    var a := Span(s, IsDigitFn());
    var n := ScanNumber(s).len;
    var text := s[..n];
    assert AllDigits(text[..a]);
    if HasDot(s) {
      assert forall i :: a < i < n ==> s[i] == s[a + 1..][i - a - 1];
      assert IsDotted(text, a);
    } else if a < |s| && IsUnit(s[a]) {
      assert text[..|text| - 1] == s[..a];
    }
  }

  lemma ScanWordSpells(s: string)
    requires s != "" && IsIdentStart(s[0]) && AsciiWord(ScanWord(s).tok)
    ensures ScanWord(s).len <= |s| && ScanWord(s).len == Width(ScanWord(s).tok)
    ensures Spells(s[..ScanWord(s).len], ScanWord(s).tok)
  {
    var raw := s[..ScanWord(s).len];
    LowerAscii(raw);
    LowerFolds(raw);
    WordChars(raw);
  }

  // A spelling of t in front of nothing or a space is read as t.
  lemma SpellingScans(text: string, t: Tok, rest: string)
    requires Spells(text, t)
    requires rest == "" || IsSpace(rest[0])
    ensures text != "" && !IsSpace(text[0])
    ensures ScanToken(text + rest) == Found(t, |text|)
  {
    hide ScanString, ScanWord, ScanNumber;
    var s := text + rest;
    assert text != "" && s[0] == text[0];
    match t.kind
    case TokString => StringScans(t.value, rest);
    case TokIdent => WordScans(text, t, rest);
    case TokKeyword => WordScans(text, t, rest);
    case TokInt => NumberScans(text, t, rest);
    case TokNumber => NumberScans(text, t, rest);
    case TokDuration => NumberScans(text, t, rest);
    case _ => PunctuationScans(text, t, rest);
  }

  lemma PunctuationScans(text: string, t: Tok, rest: string)
    requires Spells(text, t) && t.kind !in {TokString, TokIdent, TokKeyword, TokInt, TokNumber, TokDuration}
    requires rest == "" || IsSpace(rest[0])
    ensures text != "" && !IsSpace(text[0])
    ensures ScanToken(text + rest) == Found(t, |text|)
  {
    hide ScanString, ScanWord, ScanNumber;
    assert text != "" && (text + rest)[0] == text[0];
  }

  lemma StringScans(v: string, rest: string)
    requires '\'' !in v
    ensures ScanString("'" + v + "'" + rest) == Found(Tok(TokString, v), |v| + 2)
  {
    var s := "'" + v + "'" + rest;
    assert forall i :: 0 <= i < |v| ==> s[1..][i] == v[i];
    assert s[1..][|v|] == '\'';
    SpanUnique(s[1..], NotQuoteFn(), |v|);
    assert s[1..1 + |v|] == v;
  }

  lemma WordScans(text: string, t: Tok, rest: string)
    requires Spells(text, t) && t.kind in {TokIdent, TokKeyword}
    requires rest == "" || IsSpace(rest[0])
    ensures ScanWord(text + rest) == Found(t, |text|)
  {
    WordIsAscii(text);
    WordChars(text);
    LowerFolds(text);
    SpanUnique(text + rest, IsIdentFn(), |text|);
    assert (text + rest)[..|text|] == text;
  }

  lemma NumberScans(text: string, t: Tok, rest: string)
    requires Spells(text, t) && t.kind in {TokInt, TokNumber, TokDuration}
    requires rest == "" || IsSpace(rest[0])
    ensures ScanNumber(text + rest) == Found(t, |text|)
    ensures IsDigit(text[0])
  {
    assert (text + rest)[..|text|] == text;
    if t.kind == TokNumber {
      var k: nat :| IsDotted(text, k);
      DottedSpan(text, k, rest);
    } else {
      var k := if t.kind == TokInt then |text| else |text| - 1;
      DigitsSpan(text, k, rest);
    }
  }

  lemma DigitsSpan(text: string, k: nat, rest: string)
    requires 0 < k <= |text| && AllDigits(text[..k])
    requires k < |text| ==> !IsDigit(text[k])
    requires k == |text| ==> rest == "" || !IsDigit(rest[0])
    ensures Span(text + rest, IsDigitFn()) == k && IsDigit(text[0])
  {
    var s := text + rest;
    assert forall i :: 0 <= i < k ==> s[i] == text[..k][i];
    SpanUnique(s, IsDigitFn(), k);
  }

  lemma DottedSpan(text: string, k: nat, rest: string)
    requires IsDotted(text, k)
    requires rest == "" || IsSpace(rest[0])
    ensures HasDot(text + rest) && NumberLength(text + rest) == |text| && IsDigit(text[0])
  {
    var s := text + rest;
    DigitsSpan(text, k, rest);
    assert s[k + 1..] == text[k + 1..] + rest;
    SpanUnique(s[k + 1..], IsDigitFn(), |text| - k - 1);
  }

  // ---- Tiling ----

  predicate Fits(src: string, t: Token) {
    t.pos + Width(t.tok) <= |src|
  }

  // The piece of src the token was read from.
  function SpanText(src: string, t: Token): string
    requires Fits(src, t)
  {
    src[t.pos..t.pos + Width(t.tok)]
  }

  // From `from` on, the tokens are spelled in order and without overlap by
  // pieces of src, only blanks lie between them, and one EOF closes the list.
  ghost predicate Tiles(src: string, from: nat, ts: seq<Token>)
    decreases |ts|
  {
    && ts != []
    && from <= ts[0].pos <= |src| && Blank(src[from..ts[0].pos])
    && if |ts| == 1 then ts[0] == Token(EOF, |src|)
       else
         && Fits(src, ts[0])
         && Spells(SpanText(src, ts[0]), ts[0].tok)
         && Tiles(src, ts[0].pos + Width(ts[0].tok), ts[1..])
  }

  lemma {:induction false} LexTiles(src: string, from: nat)
    requires from <= |src| && LexAt(src[from..], from).LexOk?
    requires forall i :: 0 <= i < |LexAt(src[from..], from).toks| ==> AsciiWord(LexAt(src[from..], from).toks[i].tok)
    ensures Tiles(src, from, LexAt(src[from..], from).toks)
    decreases |src| - from
  {
    hide ScanToken, Spells, LexAt, AsciiWord;
    var s := src[from..];
    var start := from + Skip(s);
    LexStep(src, from, start);
    assert src[from..start] == s[..Skip(s)];
    if start < |src| {
      var n := ScanToken(src[start..]).len;
      var ts, tail := LexAt(s, from).toks, LexAt(src[start + n..], start + n).toks;
      assert ts[0].pos == start && ts[1..] == tail && ts[0].tok == ScanToken(src[start..]).tok;
      forall i | 0 <= i < |tail| ensures AsciiWord(tail[i].tok) {
        assert tail[i] == ts[i + 1];
      }
      ScanSpells(src[start..]);
      LexTiles(src, start + n);
      assert src[start..][..n] == SpanText(src, ts[0]);
    }
  }

  // The tokens Lex returns tile its input.
  lemma LexTilesInput(input: string)
    requires LexAt(input, 0).LexOk? && AsciiWords(input)
    ensures Tiles(input, 0, LexAt(input, 0).toks)
  {
    assert input[0..] == input;
    LexTiles(input, 0);
  }

  // ---- Lexing again ----

  function Bare(ts: seq<Token>): (r: seq<Tok>)
    ensures |r| == |ts|
  {
    seq(|ts|, i requires 0 <= i < |ts| => ts[i].tok)
  }

  ghost predicate SpellAll(texts: seq<string>, toks: seq<Tok>) {
    |texts| == |toks| && forall i :: 0 <= i < |toks| ==> Spells(texts[i], toks[i])
  }

  // Spellings joined by single spaces lex to exactly the tokens they spell.
  lemma {:induction false} JoinedLex(texts: seq<string>, toks: seq<Tok>, at: nat)
    requires SpellAll(texts, toks)
    ensures LexAt(Join(texts, " "), at).LexOk?
    ensures Bare(LexAt(Join(texts, " "), at).toks) == toks + [EOF]
    decreases |toks|, 0
  {
    hide ScanToken, Spells, LexAt;
    if toks == [] {
      LexNothing(at);
    } else {
      var text := texts[0];
      var rest := if |texts| == 1 then "" else " " + Join(texts[1..], " ");
      var s := Join(texts, " ");
      assert s == text + rest;
      SpellingScans(text, toks[0], rest);
      LexHead(text, rest, toks[0], at);
      JoinedLexTail(texts[1..], toks[1..], at + |text|);
      BareBefore(Token(toks[0], at), LexAt(rest, at + |text|));
    }
  }

  lemma LexNothing(at: nat)
    ensures LexAt("", at) == LexOk([Token(EOF, at)])
    ensures Bare(LexAt("", at).toks) == [EOF]
  {
    hide ScanToken, LexAt;
    NothingLexes("", at);
    assert Bare([Token(EOF, at)]) == [EOF];
  }

  lemma NothingLexes(s: string, at: nat)
    requires |s| == 0
    ensures LexAt(s, at) == LexOk([Token(EOF, at)])
  {
    hide ScanToken, Skip;
  }

  lemma LexHead(text: string, rest: string, t: Tok, at: nat)
    requires text != "" && !IsSpace(text[0])
    requires ScanToken(text + rest) == Found(t, |text|)
    ensures LexAt(text + rest, at) == Before(Token(t, at), LexAt(rest, at + |text|))
  {
    hide ScanToken, LexAt;
    var s := text + rest;
    assert !IsSpace(s[0]);
    LexHere(s, t, |text|, at);
    assert s[|text|..] == rest;
  }

  // No white space to skip in front of the next token.
  lemma LexHere(s: string, t: Tok, n: nat, at: nat)
    requires s != "" && !IsSpace(s[0])
    requires ScanToken(s) == Found(t, n)
    ensures n <= |s| && LexAt(s, at) == Before(Token(t, at), LexAt(s[n..], at + n))
  {
    hide ScanToken;
    ScanLength(s);
    assert Skip(s) == 0;
    assert s[0..] == s;
  }

  lemma BareBefore(t: Token, r: LexResult)
    requires r.LexOk?
    ensures Bare(Before(t, r).toks) == [t.tok] + Bare(r.toks)
  {
  }

  // The same behind one leading space, or at the end.
  lemma JoinedLexTail(texts: seq<string>, toks: seq<Tok>, at: nat)
    requires SpellAll(texts, toks)
    ensures var rest := if texts == [] then "" else " " + Join(texts, " ");
            LexAt(rest, at).LexOk? && Bare(LexAt(rest, at).toks) == toks + [EOF]
    decreases |toks|, 1
  {
    hide ScanToken, Spells;
    if toks != [] {
      var s := Join(texts, " ");
      JoinedLex(texts, toks, at + 1);
      SpellingScans(texts[0], toks[0], "");
      assert s[0] == texts[0][0];
      LexBehindSpace(s, at);
    }
  }

  lemma LexBehindSpace(s: string, at: nat)
    requires s != "" && !IsSpace(s[0])
    ensures LexAt(" " + s, at) == LexAt(s, at + 1)
  {
    hide ScanToken;
    var t := " " + s;
    SpanUnique(t, IsSpaceFn(), 1);
    assert t[1..] == s && s[0..] == s;
    assert Skip(s) == 0;
  }

  function SpanTexts(src: string, ts: seq<Token>): (texts: seq<string>)
    requires forall t <- ts :: Fits(src, t)
    ensures |texts| == |ts|
  {
    if ts == [] then [] else [SpanText(src, ts[0])] + SpanTexts(src, ts[1..])
  }

  lemma {:induction false} TilesSpelled(src: string, from: nat, ts: seq<Token>)
    requires Tiles(src, from, ts)
    ensures forall t <- ts[..|ts| - 1] :: Fits(src, t)
    ensures SpellAll(SpanTexts(src, ts[..|ts| - 1]), Bare(ts[..|ts| - 1]))
    ensures ts[|ts| - 1] == Token(EOF, |src|)
    decreases |ts|
  {
    hide Spells;
    if |ts| > 1 {
      TilesSpelled(src, ts[0].pos + Width(ts[0].tok), ts[1..]);
      var body, tail := ts[..|ts| - 1], ts[1..][..|ts| - 2];
      assert body == [ts[0]] + tail && body[1..] == tail;
      assert Bare(body) == [ts[0].tok] + Bare(tail);
      assert SpanTexts(src, body) == [SpanText(src, ts[0])] + SpanTexts(src, tail);
    }
  }

  // Joining the token texts of any lexable input by single spaces and lexing
  // the result gives the same kinds and values.
  lemma RelexSpans(input: string)
    requires LexAt(input, 0).LexOk? && AsciiWords(input)
    ensures var ts := LexAt(input, 0).toks;
            var body := ts[..|ts| - 1];
            && (forall t <- body :: Fits(input, t))
            && LexAt(Join(SpanTexts(input, body), " "), 0).LexOk?
            && Bare(LexAt(Join(SpanTexts(input, body), " "), 0).toks) == Bare(ts)
  {
    hide ScanToken, Spells, LexAt;
    var ts := LexAt(input, 0).toks;
    LexTilesInput(input);
    TilesSpelled(input, 0, ts);
    var body := ts[..|ts| - 1];
    JoinedLex(SpanTexts(input, body), Bare(body), 0);
    assert Bare(ts) == Bare(body) + [EOF];
  }
}
