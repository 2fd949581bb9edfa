// Tokens and syntax tree of netql (pkg/netql/types.go), and the two strconv
// conversions the parser applies to token text.

module NetqlTypes {
  import opened Options

  datatype TokenKind =
    | TokEOF | TokIdent | TokString | TokNumber | TokInt | TokDuration
    | TokLParen | TokRParen | TokComma
    | TokEq | TokNe | TokLt | TokLe | TokGt | TokGe
    | TokKeyword

  // What the parser looks at: the kind and the canonical text.
  datatype Tok = Tok(kind: TokenKind, value: string)

  // One lexer output unit: a Tok and the byte offset it starts at.
  datatype Token = Token(tok: Tok, pos: nat)

  const EOF := Tok(TokEOF, "")

  const KEYWORDS: set<string> := {
    "by", "where", "and", "or", "not", "in", "contains", "matches",
    "over", "step", "order", "asc", "desc", "limit"
  }

  function Kw(w: string): Tok {
    Tok(TokKeyword, w)
  }

  datatype Op = OpEq | OpNe | OpLt | OpLe | OpGt | OpGe | OpIn | OpContains | OpMatches

  // The right-hand side of a predicate; the constructor is the ValueKind.
  datatype Value =
    | ValString(s: string)
    | ValNumber(n: real)
    | ValStringList(ss: seq<string>)
    | ValNumberList(ns: seq<real>)

  datatype Predicate = Predicate(field: string, op: Op, value: Value)

  datatype Expr =
    | Pred(p: Predicate)
    | And(terms: seq<Expr>)
    | Or(terms: seq<Expr>)
    | Not(inner: Expr)

  datatype Direction = DirAsc | DirDesc

  datatype Duration = Duration(count: int, unit: char)

  datatype OrderBy = OrderBy(field: string, direction: Direction)

  datatype Query = Query(
    metric: string,
    groupBy: seq<string>,
    filter: Option<Expr>,
    over: Option<Duration>,
    step: Option<Duration>,
    orderBy: Option<OrderBy>,
    limit: Option<int>)

  // No empty lists and no empty conjunctions or disjunctions; so are all
  // expressions the parser builds.
  predicate Shaped(e: Expr) {
    match e
    case Pred(p) => (p.value.ValStringList? ==> p.value.ss != []) && (p.value.ValNumberList? ==> p.value.ns != [])
    case And(terms) => terms != [] && forall t <- terms :: Shaped(t)
    case Or(terms) => terms != [] && forall t <- terms :: Shaped(t)
    case Not(inner) => Shaped(inner)
  }
}

// strconv.Atoi and strconv.ParseFloat on the texts the lexer hands to the
// parser: digits, and digits with one dot.
module Numbers {
  import opened Options
  import opened Decimal

  const MAX_INT64: int := 0x7FFF_FFFF_FFFF_FFFF

  // Decimal values from here on round to infinity in float64, which
  // strconv.ParseFloat reports as a range error (2^1024 - 2^970).
  function FloatLimit(): real {
    0xFFFFFFFFFFFFFC00000000000000000000000000000000000000000000000000_0000000000000000000000000000000000000000000000000000000000000000_0000000000000000000000000000000000000000000000000000000000000000_0000000000000000000000000000000000000000000000000000000000000000 as real
  }

  function Atoi(s: string): Option<int> {
    if s != "" && AllDigits(s) && Value(s) <= MAX_INT64 then Some(Value(s)) else None
  }

  function DotIndex(s: string): (k: nat)
    ensures k <= |s|
    ensures forall i :: 0 <= i < k ==> s[i] != '.'
    ensures k < |s| ==> s[k] == '.'
  {
    if s == "" || s[0] == '.' then 0 else 1 + DotIndex(s[1..])
  }

  function ParseFloat(s: string): Option<real> {
    var k := DotIndex(s);
    var frac := if k == |s| then "" else s[k + 1..];
    if k == 0 || !AllDigits(s[..k]) || !AllDigits(frac) then None
    else
      assert AllDigits(s[..k] + frac);
      var v := Quotient(Value(s[..k] + frac), |frac|);
      if v < FloatLimit() then Some(v) else None
  }

  // r * 10^k is the natural number n.
  ghost predicate IsScaled(r: real, k: nat, n: nat) {
    r == Quotient(n, k)
  }

  function Quotient(n: nat, k: nat): real {
    n as real / Pow10(k) as real
  }

  // The numbers that have a finite decimal text below the limit.
  ghost predicate Printable(r: real) {
    r < FloatLimit() && exists k: nat, n: nat :: IsScaled(r, k, n)
  }

  // A scale k and a natural number n with r == n / 10^k; k is 0 if it can be.
  ghost function ScaleOf(r: real): (kn: (nat, nat))
    requires Printable(r)
    ensures IsScaled(r, kn.0, kn.1)
  {
    if exists n: nat :: IsScaled(r, 0, n) then
      var n: nat :| IsScaled(r, 0, n);
      (0, n)
    else
      var k: nat, n: nat :| IsScaled(r, k, n);
      (k, n)
  }

  // Decimal text of a printable number: no dot when it is an integer.
  ghost function NumberText(r: real): (s: string)
    requires Printable(r)
  {
    var (k, n) := ScaleOf(r);
    if k == 0 then Digits(n) else DotText(k, n)
  }

  // The text of n / 10^k, with at least one digit before the dot.
  function DotText(k: nat, n: nat): (s: string) {
    var d := Zeros(k) + Digits(n);
    d[..|d| - k] + "." + d[|d| - k..]
  }

  lemma DotIndexUnique(a: string, b: string)
    requires AllDigits(a)
    requires b == "" || b[0] == '.'
    ensures DotIndex(a + b) == |a|
  {
    assert forall i :: 0 <= i < |a| ==> (a + b)[i] == a[i];
    assert b != "" ==> (a + b)[|a|] == '.';
  }

  lemma ParseInteger(n: nat)
    requires n as real < FloatLimit()
    ensures ParseFloat(Digits(n)) == Some(n as real)
  {
    hide FloatLimit;
    var s := Digits(n);
    ValueOfDigits(n);
    assert s + "" == s;
    DotIndexUnique(s, "");
    assert s[..|s|] + "" == s;
    assert Pow10(0) == 1;
  }

  lemma ParseSplit(a: string, b: string)
    requires a != "" && AllDigits(a) && AllDigits(b) && AllDigits(a + b)
    requires Quotient(Value(a + b), |b|) < FloatLimit()
    ensures ParseFloat(a + "." + b) == Some(Quotient(Value(a + b), |b|))
  {
    hide FloatLimit, Quotient, Value;
    var s := a + "." + b;
    assert s == a + ("." + b);
    assert DotIndex(s) == |a| by {
      DotIndexUnique(a, "." + b);
    }
    assert s[..|a|] == a && s[|a| + 1..] == b;
  }

  lemma ParseDotText(k: nat, n: nat)
    requires Quotient(n, k) < FloatLimit()
    ensures ParseFloat(DotText(k, n)) == Some(Quotient(n, k))
  {
    hide FloatLimit;
    var d := Zeros(k) + Digits(n);
    LeadingZeros(k, Digits(n));
    ValueOfDigits(n);
    var a, b := d[..|d| - k], d[|d| - k..];
    assert a + b == d;
    ParseSplit(a, b);
  }

  // Reading back the text of a printable number gives the number.
  lemma ParseFloatOfText(r: real)
    requires Printable(r)
    ensures ParseFloat(NumberText(r)) == Some(r)
  {
    hide FloatLimit;
    var (k, n) := ScaleOf(r);
    if k == 0 {
      assert Pow10(0) == 1;
      ParseInteger(n);
    } else {
      ParseDotText(k, n);
    }
  }

  // Every number the parser can read is printable.
  lemma ParsedIsPrintable(s: string)
    requires ParseFloat(s).Some?
    ensures Printable(ParseFloat(s).value)
  {
    hide FloatLimit;
    var k := DotIndex(s);
    var frac := if k == |s| then "" else s[k + 1..];
    assert AllDigits(s[..k] + frac);
    assert IsScaled(ParseFloat(s).value, |frac|, Value(s[..k] + frac));
  }
}
