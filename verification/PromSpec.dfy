// PromQL string literals, anchored regular expressions and label matchers, as
// far as pkg/netql/translate_prom.go writes them: readers that say what the
// emitted text means.

module PromText {
  import opened Options
  import opened Sql

  // ---- Double-quoted strings ----

  // The character an escape letter stands for, among the one-letter escapes.
  function Unescape(c: char): Option<char> {
    if c == '\\' || c == '"' then Some(c)
    else if c == 'n' then Some('\n')
    else if c == 't' then Some('\t')
    else if c == 'r' then Some('\r')
    else None
  }

  // The body of a string literal up to its closing quote, and what follows.
  function ReadBody(t: string): Option<(string, string)> {
    if t == "" || t[0] == '\n' then None
    else if t[0] == '"' then Some(("", t[1..]))
    else if t[0] == '\\' then
      if |t| < 2 then None
      else match (Unescape(t[1]), ReadBody(t[2..]))
           case (Some(c), Some((s, rest))) => Some(([c] + s, rest))
           case _ => None
    else match ReadBody(t[1..])
         case Some((s, rest)) => Some(([t[0]] + s, rest))
         case None => None
  }

  function ReadString(t: string): Option<(string, string)> {
    if t == "" || t[0] != '"' then None else ReadBody(t[1..])
  }

  // ---- Regular expressions: literals, escapes and ".*" ----

  datatype Piece = Lit(c: char) | AnyStar

  // The characters that do not stand for themselves outside a class.
  predicate Special(c: char) {
    || c == '\\' || c == '.' || c == '+' || c == '*' || c == '?' || c == '|' || c == '^' || c == '$'
    || c == '(' || c == ')' || c == '[' || c == ']' || c == '{' || c == '}'
  }

  function ReadPattern(p: string): Option<seq<Piece>> {
    if p == "" then Some([])
    else if p[0] == '\\' then
      if |p| < 2 || !Special(p[1]) then None else Ahead(Lit(p[1]), ReadPattern(p[2..]))
    else if p[0] == '.' && |p| > 1 && p[1] == '*' then Ahead(AnyStar, ReadPattern(p[2..]))
    else if Special(p[0]) then None
    else Ahead(Lit(p[0]), ReadPattern(p[1..]))
  }

  function Ahead(x: Piece, r: Option<seq<Piece>>): Option<seq<Piece>> {
    match r
    case None => None
    case Some(xs) => Some([x] + xs)
  }

  // Anchored at both ends; "." matches every character.
  ghost predicate Matches(ps: seq<Piece>, s: string) {
    if ps == [] then s == ""
    else match ps[0]
         case Lit(c) => s != "" && s[0] == c && Matches(ps[1..], s[1..])
         case AnyStar => exists i: nat :: i <= |s| && Matches(ps[1..], s[i..])
  }

  // ---- Label matchers ----

  datatype MatchOp = MEq | MNe | MRe

  datatype Matcher = Matcher(name: string, op: MatchOp, value: string)

  predicate LabelChar(c: char) {
    'a' <= c <= 'z' || 'A' <= c <= 'Z' || '0' <= c <= '9' || c == '_'
  }

  predicate IsLabel(s: string) {
    s != "" && forall i :: 0 <= i < |s| ==> LabelChar(s[i])
  }

  function LabelSpan(t: string): (n: nat)
    ensures n <= |t|
  {
    if t == "" || !LabelChar(t[0]) then 0 else 1 + LabelSpan(t[1..])
  }

  function ReadOp(t: string): Option<(MatchOp, string)> {
    if |t| >= 2 && t[0] == '!' && t[1] == '=' then Some((MNe, t[2..]))
    else if |t| >= 2 && t[0] == '=' && t[1] == '~' then Some((MRe, t[2..]))
    else if |t| >= 1 && t[0] == '=' then Some((MEq, t[1..]))
    else None
  }

  // label op string
  function ReadMatcher(t: string): Option<(Matcher, string)> {
    var n := LabelSpan(t);
    if n == 0 then None
    else match ReadOp(t[n..])
         case None => None
         case Some((op, u)) =>
           match ReadString(u)
           case None => None
           case Some((v, rest)) => Some((Matcher(t[..n], op, v), rest))
  }

  // matcher {"," matcher} "}", and nothing behind it.
  function ReadMatchers(t: string): Option<seq<Matcher>>
    decreases |t|
  {
    match ReadMatcher(t)
    case None => None
    case Some((m, rest)) =>
      if rest == "}" then Some([m])
      else if rest != "" && rest[0] == ',' && |rest| <= |t| then
        match ReadMatchers(rest[1..])
        case None => None
        case Some(ms) => Some([m] + ms)
      else None
  }

  // A selector's matcher part: nothing, or a brace list.
  function ReadSelector(t: string): Option<seq<Matcher>> {
    if t == "" then Some([])
    else if t[0] != '{' then None
    else ReadMatchers(t[1..])
  }

  // The labels of a series (a missing label reads as "") and the engine's
  // anchored regex match.
  datatype Series = Series(labels: map<string, string>, rx: (string, string) -> bool)

  function LabelValue(s: Series, name: string): string {
    if name in s.labels then s.labels[name] else ""
  }

  predicate MatcherHolds(m: Matcher, s: Series) {
    match m.op
    case MEq => LabelValue(s, m.name) == m.value
    case MNe => LabelValue(s, m.name) != m.value
    case MRe => s.rx(m.value, LabelValue(s, m.name))
  }

  // The engine agrees with Matches on the patterns ReadPattern understands.
  ghost predicate Faithful(rx: (string, string) -> bool) {
    forall p: string, v: string :: ReadPattern(p).Some? ==> (rx(p, v) <==> Matches(ReadPattern(p).value, v))
  }
}
