// The netql lexer (pkg/netql/lexer.go).
//
// LexAt and ScanToken say what the lexer computes on the text still to be
// read; the class Cursor is the code that moves along it, proved against them.

module Lexer {
  import opened Options
  import opened Decimal
  import opened NetqlTypes

  datatype LexResult = LexOk(toks: seq<Token>) | LexErr(pos: nat)

  datatype Scan = Found(tok: Tok, len: nat) | Bad

  predicate IsSpace(c: char) {
    c == ' ' || c == '\t' || c == '\n' || c == '\r'
  }

  // unicode.IsLetter on a byte: the ASCII letters and the Latin-1 ones.
  predicate IsLetter(c: char) {
    || 'a' <= c <= 'z' || 'A' <= c <= 'Z'
    || c as int == 0xAA || c as int == 0xB5 || c as int == 0xBA
    || (0xC0 <= c as int <= 0xFF && c as int != 0xD7 && c as int != 0xF7)
  }

  predicate IsIdentStart(c: char) {
    c == '_' || IsLetter(c)
  }

  predicate IsIdentCont(c: char) {
    IsIdentStart(c) || IsDigit(c)
  }

  function LowerChar(c: char): char {
    if 'A' <= c <= 'Z' then (c as int + 32) as char else c
  }

  // strings.ToLower on ASCII text.
  function Lower(s: string): (t: string)
    ensures |t| == |s|
  {
    seq(|s|, i requires 0 <= i < |s| => LowerChar(s[i]))
  }

  // Length of the longest prefix of s whose characters all satisfy p.
  function Span(s: string, p: char -> bool): (n: nat)
    ensures n <= |s|
    ensures forall i :: 0 <= i < n ==> p(s[i])
    ensures n < |s| ==> !p(s[n])
  {
    if s == "" || !p(s[0]) then 0 else 1 + Span(s[1..], p)
  }

  lemma SpanUnique(s: string, p: char -> bool, n: nat)
    requires n <= |s|
    requires forall i :: 0 <= i < n ==> p(s[i])
    requires n < |s| ==> !p(s[n])
    ensures Span(s, p) == n
  {
  }

  predicate IsUnit(c: char) {
    c in {'s', 'm', 'h', 'd', 'w'}
  }

  predicate NotQuote(c: char) {
    c != '\''
  }

  function IsDigitFn(): char -> bool { (c: char) => IsDigit(c) }
  function IsIdentFn(): char -> bool { (c: char) => IsIdentCont(c) }
  function IsSpaceFn(): char -> bool { (c: char) => IsSpace(c) }
  function NotQuoteFn(): char -> bool { (c: char) => NotQuote(c) }

  function ScanString(s: string): Scan
    requires s != ""
  {
    var n := Span(s[1..], NotQuoteFn());
    if 1 + n == |s| then Bad else Found(Tok(TokString, s[1..1 + n]), n + 2)
  }

  // Length of the digits, the dot and the digits after it.
  function NumberLength(s: string): (n: nat)
    ensures n <= |s|
  {
    var a := Span(s, IsDigitFn());
    if a < |s| && s[a] == '.' then a + 1 + Span(s[a + 1..], IsDigitFn()) else a
  }

  predicate HasDot(s: string) {
    var a := Span(s, IsDigitFn());
    a < |s| && s[a] == '.'
  }

  function ScanNumber(s: string): Scan {
    var n := NumberLength(s);
    if HasDot(s) then Found(Tok(TokNumber, s[..n]), n)
    else if n < |s| && IsUnit(s[n]) then Found(Tok(TokDuration, s[..n + 1]), n + 1)
    else Found(Tok(TokInt, s[..n]), n)
  }

  function Word(raw: string): Tok {
    var low := Lower(raw);
    if low in KEYWORDS then Tok(TokKeyword, low) else Tok(TokIdent, low)
  }

  function ScanWord(s: string): Scan {
    var n := Span(s, IsIdentFn());
    Found(Word(s[..n]), n)
  }

  function Fixed(kind: TokenKind, value: string): Scan {
    Found(Tok(kind, value), |value|)
  }

  // The token at the start of s, which is not white space.
  function ScanToken(s: string): Scan
    requires s != ""
  {
    var c := s[0];
    var eq := |s| > 1 && s[1] == '=';
    if c == '(' then Fixed(TokLParen, "(")
    else if c == ')' then Fixed(TokRParen, ")")
    else if c == ',' then Fixed(TokComma, ",")
    else if c == '\'' then ScanString(s)
    else if c == '=' then Fixed(TokEq, "=")
    else if c == '!' then (if eq then Fixed(TokNe, "!=") else Bad)
    else if c == '<' then (if eq then Fixed(TokLe, "<=") else Fixed(TokLt, "<"))
    else if c == '>' then (if eq then Fixed(TokGe, ">=") else Fixed(TokGt, ">"))
    else if IsDigit(c) then ScanNumber(s)
    else if IsIdentStart(c) then ScanWord(s)
    else Bad
  }

  lemma ScanLength(s: string)
    requires s != "" && ScanToken(s).Found?
    ensures 0 < ScanToken(s).len <= |s| && ScanToken(s).tok.kind != TokEOF
  {
  }

  function Skip(s: string): (n: nat)
    ensures n <= |s|
  {
    Span(s, IsSpaceFn())
  }

  // Tokens of the text s, whose first character is at offset `at`.
  function LexAt(s: string, at: nat): LexResult
    decreases |s|
  {
    var w := Skip(s);
    if w == |s| then LexOk([Token(EOF, at + w)])
    else
      var rest := s[w..];
      match ScanToken(rest)
      case Bad => LexErr(at + w)
      case Found(tok, n) =>
        ScanLength(rest);
        Before(Token(tok, at + w), LexAt(rest[n..], at + w + n))
  }

  function Before(t: Token, r: LexResult): LexResult {
    match r
    case LexErr(_) => r
    case LexOk(ts) => LexOk([t] + ts)
  }

  function Prepend(ts: seq<Token>, r: LexResult): LexResult {
    match r
    case LexErr(_) => r
    case LexOk(us) => LexOk(ts + us)
  }

  // The cursor of the source: `src` never changes, `pos` only moves forward.
  class Cursor {
    const src: string
    var pos: nat

    constructor (input: string)
      ensures src == input && pos == 0
    {
      src, pos := input, 0;
    }

    predicate Valid()
      reads this
    {
      pos <= |src|
    }

    // Moves over every leading character that satisfies p.
    method SkipWhile(p: char -> bool)
      requires Valid()
      modifies this`pos
      ensures Valid()
      ensures pos == old(pos) + Span(src[old(pos)..], p)
    {
      while pos < |src| && p(src[pos])
        invariant old(pos) <= pos <= |src|
        invariant forall i :: old(pos) <= i < pos ==> p(src[i])
      {
        pos := pos + 1;
      }
      SpanUnique(src[old(pos)..], p, pos - old(pos));
    }

    method LexString() returns (r: Option<Tok>)
      requires Valid() && pos < |src| && src[pos] == '\''
      modifies this`pos
      ensures Valid()
      ensures Scanned(r, ScanString(src[old(pos)..]), old(pos))
    {
      var start := pos;
      pos := pos + 1;
      var sb := "";
      while pos < |src|
        invariant start + 1 <= pos <= |src|
        invariant sb == src[start + 1..pos]
        invariant forall i :: start < i < pos ==> src[i] != '\''
      {
        var c := src[pos];
        if c == '\'' {
          SpanUnique(src[start..][1..], NotQuoteFn(), pos - start - 1);
          assert src[start..][1..1 + (pos - start - 1)] == sb;
          pos := pos + 1;
          return Some(Tok(TokString, sb));
        }
        sb := sb + [c];
        pos := pos + 1;
      }
      SpanUnique(src[start..][1..], NotQuoteFn(), pos - start - 1);
      return None;
    }

    // Moves over the digits, the dot and the digits after it.
    method SkipNumber() returns (hasDot: bool)
      requires Valid()
      modifies this`pos
      ensures Valid()
      ensures pos == old(pos) + NumberLength(src[old(pos)..])
      ensures hasDot == HasDot(src[old(pos)..])
    {
      ghost var s := src[pos..];
      ghost var a := Span(s, IsDigitFn());
      SkipWhile(IsDigitFn());
      hasDot := false;
      if pos < |src| && src[pos] == '.' {
        hasDot := true;
        pos := pos + 1;
        assert s[a + 1..] == src[pos..];
        SkipWhile(IsDigitFn());
      }
    }

    method LexNumberOrDuration() returns (r: Option<Tok>)
      requires Valid() && pos < |src| && IsDigit(src[pos])
      modifies this`pos
      ensures Valid()
      ensures Scanned(r, ScanNumber(src[old(pos)..]), old(pos))
    {
      hide HasDot, NumberLength;
      var start := pos;
      ghost var s := src[start..];
      var hasDot := SkipNumber();
      ghost var n := pos - start;
      var digits := src[start..pos];
      assert digits == s[..n];
      if !hasDot && pos < |src| {
        var c := src[pos];
        assert c == s[n];
        if c in {'s', 'm', 'h', 'd', 'w'} {
          assert s[..n + 1] == digits + [c];
          pos := pos + 1;
          return Some(Tok(TokDuration, digits + [c]));
        }
      }
      return Some(Tok(if hasDot then TokNumber else TokInt, digits));
    }

    method LexIdentOrKeyword() returns (r: Option<Tok>)
      requires Valid() && pos < |src|
      modifies this`pos
      ensures Valid()
      ensures Scanned(r, ScanWord(src[old(pos)..]), old(pos))
    {
      var start := pos;
      SkipWhile(IsIdentFn());
      var raw := src[start..pos];
      assert raw == src[start..][..pos - start];
      var low := Lower(raw);
      return Some(Tok(if low in KEYWORDS then TokKeyword else TokIdent, low));
    }

    // r and the cursor are what the scan of the text at `from` says.
    ghost predicate Scanned(r: Option<Tok>, scan: Scan, from: nat)
      reads this
    {
      match scan
      case Bad => r == None
      case Found(tok, n) => r == Some(tok) && pos == from + n
    }

    method Next() returns (start: nat, r: Option<Tok>)
      requires Valid()
      modifies this`pos
      ensures Valid()
      ensures start == old(pos) + Skip(src[old(pos)..])
      ensures start == |src| ==> r == Some(EOF) && pos == |src|
      ensures start < |src| ==> Scanned(r, ScanToken(src[start..]), start)
    {
      SkipWhile(IsSpaceFn());
      start := pos;
      if pos >= |src| {
        return start, Some(EOF);
      }
      var c := src[pos];
      var eq := pos + 1 < |src| && src[pos + 1] == '=';
      assert eq == (|src[start..]| > 1 && src[start..][1] == '=');
      if c == '(' {
        pos := pos + 1;
        r := Some(Tok(TokLParen, "("));
      } else if c == ')' {
        pos := pos + 1;
        r := Some(Tok(TokRParen, ")"));
      } else if c == ',' {
        pos := pos + 1;
        r := Some(Tok(TokComma, ","));
      } else if c == '\'' {
        r := LexString();
      } else if c == '=' {
        pos := pos + 1;
        r := Some(Tok(TokEq, "="));
      } else if c == '!' {
        if eq {
          pos := pos + 2;
          r := Some(Tok(TokNe, "!="));
        } else {
          r := None;
        }
      } else if c == '<' {
        if eq {
          pos := pos + 2;
          r := Some(Tok(TokLe, "<="));
        } else {
          pos := pos + 1;
          r := Some(Tok(TokLt, "<"));
        }
      } else if c == '>' {
        if eq {
          pos := pos + 2;
          r := Some(Tok(TokGe, ">="));
        } else {
          pos := pos + 1;
          r := Some(Tok(TokGt, ">"));
        }
      } else if IsDigit(c) {
        r := LexNumberOrDuration();
      } else if IsIdentStart(c) {
        r := LexIdentOrKeyword();
      } else {
        r := None;
      }
    }
  }

  // One turn of the loop below: skip to `start`, scan there, go on after it.
  lemma LexStep(src: string, from: nat, start: nat)
    requires from <= start <= |src| && start == from + Skip(src[from..])
    ensures start == |src| ==> LexAt(src[from..], from) == LexOk([Token(EOF, start)])
    ensures start < |src| ==>
              match ScanToken(src[start..])
              case Bad => LexAt(src[from..], from) == LexErr(start)
              case Found(tok, n) =>
                && 0 < n <= |src| - start && tok.kind != TokEOF
                && LexAt(src[from..], from) == Before(Token(tok, start), LexAt(src[start + n..], start + n))
  {
    hide ScanToken, LexAt, Skip;
    var s := src[from..];
    assert s[start - from..] == src[start..];
    if start == |src| {
      LexEnd(s, from);
    } else {
      LexFirst(s, from);
      if ScanToken(src[start..]).Found? {
        var n := ScanToken(src[start..]).len;
        ScanLength(src[start..]);
        assert src[start..][n..] == src[start + n..];
      }
    }
  }

  lemma LexEnd(s: string, at: nat)
    requires Skip(s) == |s|
    ensures LexAt(s, at) == LexOk([Token(EOF, at + |s|)])
  {
    hide ScanToken;
  }

  lemma LexFirst(s: string, at: nat)
    requires Skip(s) < |s|
    ensures var w := Skip(s);
            match ScanToken(s[w..])
            case Bad => LexAt(s, at) == LexErr(at + w)
            case Found(tok, n) =>
              && n <= |s[w..]|
              && LexAt(s, at) == Before(Token(tok, at + w), LexAt(s[w..][n..], at + w + n))
  {
    hide ScanToken;
    if ScanToken(s[Skip(s)..]).Found? {
      ScanLength(s[Skip(s)..]);
    }
  }

  lemma PrependBefore(ts: seq<Token>, t: Token, r: LexResult)
    ensures Prepend(ts, Before(t, r)) == Prepend(ts + [t], r)
  {
    if r.LexOk? {
      assert ts + ([t] + r.toks) == ts + [t] + r.toks;
    }
  }

  method Lex(input: string) returns (r: LexResult)
    ensures r == LexAt(input, 0)
  {
    hide ScanToken, LexAt;
    var l := new Cursor(input);
    var out: seq<Token> := [];
    assert input[0..] == input;
    while true
      invariant fresh(l) && l.src == input && l.Valid()
      invariant LexAt(input, 0) == Prepend(out, LexAt(input[l.pos..], l.pos))
      decreases |input| - l.pos
    {
      ghost var from := l.pos;
      var start, tok := l.Next();
      LexStep(input, from, start);
      if tok == None {
        return LexErr(start);
      }
      if start < |input| {
        PrependBefore(out, Token(tok.value, start), LexAt(input[l.pos..], l.pos));
      }
      out := out + [Token(tok.value, start)];
      if tok.value.kind == TokEOF {
        return LexOk(out);
      }
    }
  }
}
