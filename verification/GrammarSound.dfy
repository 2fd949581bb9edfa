// The converse of Grammar.DerivationParses: whatever the parser accepts has a
// derivation in the grammar, and the tree it built is that derivation's.

module GrammarSound {
  import opened Options
  import opened NetqlTypes
  import opened ParserSpec
  import opened Grammar

  // Punctuation carries its one spelling, as in every token the lexer makes.
  predicate Canonical(t: Tok) {
    match t.kind
    case TokEOF => false
    case TokComma => t == COMMA
    case TokLParen => t == LPAREN
    case TokRParen => t == RPAREN
    case _ => true
  }

  predicate AllCanonical(ts: seq<Tok>) {
    forall t <- ts :: Canonical(t)
  }

  lemma CanonicalAt(ts: seq<Tok>, i: nat)
    requires AllCanonical(ts) && i < |ts|
    ensures Canonical(ts[i])
  {
  }

  lemma CanonicalBehind(ts: seq<Tok>, i: nat)
    requires AllCanonical(ts) && i <= |ts|
    ensures AllCanonical(ts[i..])
  {
  }

  // The token in front of a suffix of ts.
  lemma CanonicalHead(ts: seq<Tok>, front: seq<Tok>, rest: seq<Tok>)
    requires AllCanonical(ts) && ts == front + rest && rest != []
    ensures Canonical(rest[0]) && rest == [rest[0]] + rest[1..]
  {
    assert ts[|front|] in ts;
  }

  lemma {:induction false} ListDerived<T>(ts: seq<Tok>, item: Tok -> Option<T>) returns (items: seq<Tok>)
    requires AllCanonical(ts) && PList(ts, item).Parsed?
    ensures items != [] && AllItems(items, item)
    ensures PList(ts, item).val == Items(items, item)
    ensures ts == YieldList(items) + PList(ts, item).rest
    ensures Peek(PList(ts, item).rest).kind != TokComma
    decreases |ts|
  {
    hide AllCanonical;
    var rest := ts[1..];
    if Peek(rest).kind == TokComma {
      CanonicalBehind(ts, 2);
      assert rest[1..] == ts[2..];
      var more := ListDerived(rest[1..], item);
      items := [ts[0]] + more;
      assert items[1..] == more;
      CanonicalAt(ts, 1);
      assert ts == [ts[0], COMMA] + rest[1..];
    } else {
      items := [ts[0]];
      assert items[1..] == [];
      assert Items(items, item) == [item(ts[0]).value];
    }
  }

  lemma {:induction false} ExprDerived(ts: seq<Tok>) returns (c: ExprC)
    requires AllCanonical(ts) && POrs(ts).Parsed?
    ensures ValidExpr(c) && Alternatives(c) == POrs(ts).val
    ensures ts == YieldExpr(c) + POrs(ts).rest && NoMore(POrs(ts).rest)
    decreases |ts|, 3
  {
    var a := AndDerived(ts);
    var rest := PAnds(ts).rest;
    if NextIs(rest, "or") {
      var more := ExprDerived(rest[1..]);
      c := MoreOr(a, more);
      assert rest == [Kw("or")] + rest[1..];
    } else {
      c := LastOr(a);
    }
  }

  lemma {:induction false} AndDerived(ts: seq<Tok>) returns (c: AndC)
    requires AllCanonical(ts) && PAnds(ts).Parsed?
    ensures ValidAnd(c) && Conjuncts(c) == PAnds(ts).val
    ensures ts == YieldAnd(c) + PAnds(ts).rest && !NextIs(PAnds(ts).rest, "and")
    decreases |ts|, 2
  {
    hide PUnary, YieldUnary, UnaryOf;
    var u := UnaryDerived(ts);
    var rest := PUnary(ts).rest;
    if NextIs(rest, "and") {
      var more := AndDerived(rest[1..]);
      c := MoreAnd(u, more);
      assert rest == [Kw("and")] + rest[1..];
    } else {
      c := LastAnd(u);
    }
  }

  lemma {:induction false} UnaryDerived(ts: seq<Tok>) returns (c: UnaryC)
    requires AllCanonical(ts) && PUnary(ts).Parsed?
    ensures ValidTerm(c.t) && UnaryOf(c) == PUnary(ts).val
    ensures ts == YieldUnary(c) + PUnary(ts).rest
    decreases |ts|, 1
  {
    hide PTerm, YieldTerm, TermOf, ValidTerm;
    if NextIs(ts, "not") {
      var t := TermDerived(ts[1..]);
      c := Negated(t);
      assert ts == [Kw("not")] + ts[1..];
    } else {
      var t := TermDerived(ts);
      c := Plain(t);
    }
  }

  lemma {:induction false} TermDerived(ts: seq<Tok>) returns (c: TermC)
    requires AllCanonical(ts) && PTerm(ts).Parsed?
    ensures ValidTerm(c) && TermOf(c) == PTerm(ts).val
    ensures ts == YieldTerm(c) + PTerm(ts).rest
    decreases |ts|, 0
  {
    hide POrs, YieldExpr, Alternatives, PPredicate, ValidExpr, OpOf, YieldValue, ValueOf, ValidValue;
    if Peek(ts).kind == TokLParen {
      var e := ExprDerived(ts[1..]);
      c := GroupC(e);
      GroupCloses(ts, e, PExpr(ts[1..]).rest);
    } else {
      c := PredicateDerived(ts);
    }
  }

  lemma GroupCloses(ts: seq<Tok>, e: ExprC, rest: seq<Tok>)
    requires AllCanonical(ts) && Peek(ts).kind == TokLParen
    requires ts[1..] == YieldExpr(e) + rest && Peek(rest).kind == TokRParen
    ensures ts == YieldTerm(GroupC(e)) + rest[1..]
  {
    hide YieldExpr, AllCanonical;
    var i := 1 + |YieldExpr(e)|;
    assert ts[i] == ts[1..][i - 1] == rest[0];
    CanonicalAt(ts, 0);
    CanonicalAt(ts, i);
    assert ts == [LPAREN] + ts[1..] && rest == [RPAREN] + rest[1..];
  }

  lemma PredicateDerived(ts: seq<Tok>) returns (c: TermC)
    requires AllCanonical(ts) && PPredicate(ts).Parsed?
    ensures ValidTerm(c) && TermOf(c) == Pred(PPredicate(ts).val)
    ensures ts == YieldTerm(c) + PPredicate(ts).rest
  {
    hide PValue, OpOf, YieldValue, ValueOf, ValidValue;
    var r2 := ts[1..][1..];
    var op := OpOf(ts[1]).value;
    var v := ValueDerived(r2, op);
    c := PredC(ts[0], ts[1], v);
    assert ts == [ts[0], ts[1]] + r2;
  }

  lemma ValueDerived(ts: seq<Tok>, op: Op) returns (v: ValueC)
    requires AllCanonical(ts) && PValue(ts, op).Parsed?
    ensures ValidValue(v, op) && ValueOf(v, op) == PValue(ts, op).val
    ensures ts == YieldValue(v) + PValue(ts, op).rest
  {
    hide PList, YieldList, Items;
    if op == OpIn {
      var rest := ts[1..];
      if Peek(rest).kind == TokString {
        var items := ListDerived(rest, StringItem);
        ListCloses(ts, items, PList(rest, StringItem).rest);
        v := ListC(items);
      } else {
        var items := ListDerived(rest, NumberItem);
        NumbersAreNotStrings(items);
        ListCloses(ts, items, PList(rest, NumberItem).rest);
        v := ListC(items);
      }
    } else {
      v := ScalarC(ts[0]);
    }
  }

  lemma NumbersAreNotStrings(items: seq<Tok>)
    requires items != [] && AllItems(items, NumberItem)
    ensures !AllItems(items, StringItem)
  {
    assert items[0] in items;
  }

  lemma ListCloses(ts: seq<Tok>, items: seq<Tok>, rest: seq<Tok>)
    requires AllCanonical(ts) && Peek(ts).kind == TokLParen
    requires ts[1..] == YieldList(items) + rest && Peek(rest).kind == TokRParen
    ensures ts == YieldValue(ListC(items)) + rest[1..]
  {
    CanonicalHead(ts, [], ts);
    CanonicalHead(ts, [LPAREN] + YieldList(items), rest);
  }

  lemma GroupByDerived(ts: seq<Tok>) returns (items: seq<Tok>)
    requires AllCanonical(ts) && PGroupBy(ts).Parsed?
    ensures AllItems(items, IdentItem) && Items(items, IdentItem) == PGroupBy(ts).val
    ensures ts == YieldBy(items) + PGroupBy(ts).rest
  {
    hide PList, YieldList, Items;
    if NextIs(ts, "by") {
      items := ListDerived(ts[1..], IdentItem);
      assert ts == [Kw("by")] + ts[1..];
    } else {
      items := [];
      NoItems(IdentItem);
    }
  }

  lemma FilterDerived(ts: seq<Tok>) returns (f: Option<ExprC>)
    requires AllCanonical(ts) && PFilter(ts).Parsed?
    ensures f.Some? ==> ValidExpr(f.value)
    ensures PFilter(ts).val == if f.Some? then Some(ExprOf(f.value)) else None
    ensures ts == YieldFilter(f) + PFilter(ts).rest
  {
    if NextIs(ts, "where") {
      var c := ExprDerived(ts[1..]);
      f := Some(c);
      assert ts == [Kw("where")] + ts[1..];
    } else {
      f := None;
    }
  }

  lemma WordDerived<T>(ts: seq<Tok>, w: string, item: Tok -> Option<T>) returns (t: Option<Tok>)
    requires NextIs(ts, w) ==> POne(ts[1..], item).Parsed?
    ensures t.Some? == NextIs(ts, w)
    ensures t.Some? ==> item(t.value).Some? && item(t.value).value == POne(ts[1..], item).val
    ensures ts == YieldWord(w, t) + if NextIs(ts, w) then POne(ts[1..], item).rest else ts
  {
    if NextIs(ts, w) {
      t := Some(ts[1]);
      assert ts == [Kw(w), ts[1]] + ts[2..];
      assert ts[1..][1..] == ts[2..];
    } else {
      t := None;
    }
  }

  lemma OrderDerived(ts: seq<Tok>) returns (o: Option<OrderC>)
    requires POrderBy(ts).Parsed?
    ensures o.Some? ==> IdentItem(o.value.field).Some?
    ensures POrderBy(ts).val == if o.Some? then Some(OrderOf(o.value)) else None
    ensures ts == YieldOrder(o) + POrderBy(ts).rest
  {
    if NextIs(ts, "order") {
      var r := ts[1..][1..][1..];
      assert ts == [Kw("order"), Kw("by"), ts[2]] + r;
      if NextIs(r, "asc") {
        o := Some(OrderC(ts[2], Some(DirAsc)));
        assert r == [Kw("asc")] + r[1..];
      } else if NextIs(r, "desc") {
        o := Some(OrderC(ts[2], Some(DirDesc)));
        assert r == [Kw("desc")] + r[1..];
      } else {
        o := Some(OrderC(ts[2], None));
      }
    } else {
      o := None;
    }
  }

  lemma QueryDerived(ts: seq<Tok>) returns (c: QueryC)
    requires AllCanonical(ts) && ParseTokens(ts).Parsed?
    ensures ValidQuery(c) && Yield(c) == ts && TreeOf(c) == ParseTokens(ts).val
  {
    hide PGroupBy, PFilter, POrderBy, POne, YieldBy, YieldFilter, YieldOrder, YieldWord;
    var r0 := POne(ts, IdentItem).rest;
    MetricDerived(ts);
    var g := GroupByDerived(r0);
    var r1 := PGroupBy(r0).rest;
    var f := FilterDerived(r1);
    var r2 := PFilter(r1).rest;
    var over := WordDerived(r2, "over", DurationItem);
    var r3 := PWindow(r2, "over").rest;
    var step := WordDerived(r3, "step", DurationItem);
    var r4 := PWindow(r3, "step").rest;
    var o := OrderDerived(r4);
    var r5 := POrderBy(r4).rest;
    var l := WordDerived(r5, "limit", LimitItem);
    c := QueryC(ts[0], g, f, over, step, o, l);
    assert r5 == YieldWord("limit", l);
  }

  lemma MetricDerived(ts: seq<Tok>)
    requires POne(ts, IdentItem).Parsed?
    ensures ts != [] && IdentItem(ts[0]).Some? && POne(ts, IdentItem).val == ts[0].value
    ensures ts == [ts[0]] + POne(ts, IdentItem).rest
  {
  }

  // The parser decides the grammar: a canonical token sequence parses to q
  // exactly if some derivation yields it and stands for q.
  lemma ParsesIffDerived(ts: seq<Tok>, q: Query)
    requires AllCanonical(ts)
    ensures ParseTokens(ts) == Parsed(q, []) <==>
            exists c: QueryC :: ValidQuery(c) && Yield(c) == ts && TreeOf(c) == q
  {
    if ParseTokens(ts) == Parsed(q, []) {
      var c := QueryDerived(ts);
    }
    forall c: QueryC | ValidQuery(c) && Yield(c) == ts && TreeOf(c) == q
      ensures ParseTokens(ts) == Parsed(q, [])
    {
      DerivationParses(c);
    }
  }

  // Two derivations of one token sequence stand for the same tree.
  lemma Unambiguous(c: QueryC, d: QueryC)
    requires ValidQuery(c) && ValidQuery(d) && Yield(c) == Yield(d)
    ensures TreeOf(c) == TreeOf(d)
  {
    DerivationParses(c);
    DerivationParses(d);
  }
}
