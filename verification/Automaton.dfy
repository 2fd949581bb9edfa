// A one-counter machine for the netql language: it reads one token at a time,
// keeps only the parenthesis depth besides its control state, and never looks
// ahead. The recursive-descent parser accepts exactly its language and stops
// with an error exactly where the machine has no move, so every parse error is
// reported at the first token that no continuation could make legal.

module Automaton {
  import opened Options
  import opened NetqlTypes
  import opened Decimal
  import opened Numbers
  import opened ParserSpec

  datatype State =
    | NeedMetric
    | Clauses(k: nat)              // clauses numbered k and later may follow
    | NeedGroupIdent | AfterGroupIdent
    | NeedUnary(d: nat) | NeedTerm(d: nat) | NeedOp(d: nat) | NeedScalar(d: nat)
    | NeedOpen(d: nat) | NeedFirst(d: nat)
    | NeedItem(d: nat, strings: bool) | AfterItem(d: nat, strings: bool)
    | AfterTerm(d: nat)
    | NeedOver | NeedStep
    | NeedBy | NeedOrderIdent | AfterOrderIdent
    | NeedLimit

  predicate Accepting(s: State) {
    s.Clauses? || s.AfterGroupIdent? || s == AfterTerm(0) || s.AfterOrderIdent?
  }

  function ClauseStep(k: nat, t: Tok): Option<State> {
    if k <= 0 && t == Kw("by") then Some(NeedGroupIdent)
    else if k <= 1 && t == Kw("where") then Some(NeedUnary(0))
    else if k <= 2 && t == Kw("over") then Some(NeedOver)
    else if k <= 3 && t == Kw("step") then Some(NeedStep)
    else if k <= 4 && t == Kw("order") then Some(NeedBy)
    else if k <= 5 && t == Kw("limit") then Some(NeedLimit)
    else None
  }

  function TermStep(d: nat, t: Tok): Option<State> {
    if t.kind == TokLParen then Some(NeedUnary(d + 1))
    else if IdentItem(t).Some? then Some(NeedOp(d))
    else None
  }

  function On(b: bool, s: State): Option<State> {
    if b then Some(s) else None
  }

  function Step(s: State, t: Tok): Option<State> {
    match s
    case NeedMetric => On(IdentItem(t).Some?, Clauses(0))
    case Clauses(k) => ClauseStep(k, t)
    case NeedGroupIdent => On(IdentItem(t).Some?, AfterGroupIdent)
    case AfterGroupIdent => if t.kind == TokComma then Some(NeedGroupIdent) else ClauseStep(1, t)
    case NeedUnary(d) => if t == Kw("not") then Some(NeedTerm(d)) else TermStep(d, t)
    case NeedTerm(d) => TermStep(d, t)
    case NeedOp(d) => if OpOf(t) == Some(OpIn) then Some(NeedOpen(d)) else On(OpOf(t).Some?, NeedScalar(d))
    case NeedScalar(d) => On(ScalarItem(t).Some?, AfterTerm(d))
    case NeedOpen(d) => On(t.kind == TokLParen, NeedFirst(d))
    case NeedFirst(d) =>
      if StringItem(t).Some? then Some(AfterItem(d, true)) else On(NumberItem(t).Some?, AfterItem(d, false))
    case NeedItem(d, strings) =>
      On(if strings then StringItem(t).Some? else NumberItem(t).Some?, AfterItem(d, strings))
    case AfterItem(d, strings) =>
      if t.kind == TokComma then Some(NeedItem(d, strings)) else On(t.kind == TokRParen, AfterTerm(d))
    case AfterTerm(d) =>
      if t == Kw("and") || t == Kw("or") then Some(NeedUnary(d))
      else if d > 0 then On(t.kind == TokRParen, AfterTerm(d - 1))
      else ClauseStep(2, t)
    case NeedOver => On(DurationItem(t).Some?, Clauses(3))
    case NeedStep => On(DurationItem(t).Some?, Clauses(4))
    case NeedBy => On(t == Kw("by"), NeedOrderIdent)
    case NeedOrderIdent => On(IdentItem(t).Some?, AfterOrderIdent)
    case AfterOrderIdent => if t == Kw("asc") || t == Kw("desc") then Some(Clauses(5)) else ClauseStep(5, t)
    case NeedLimit => On(LimitItem(t).Some?, Clauses(6))
  }

  // Reads as far as there is a move: whether the machine then stands in an
  // accepting state, and the tokens left.
  function Drive(s: State, ts: seq<Tok>): (bool, seq<Tok>)
    decreases |ts|
  {
    if ts == [] || Step(s, ts[0]) == None then (Accepting(s), ts)
    else Drive(Step(s, ts[0]).value, ts[1..])
  }

  // State reached on ts, if every token has a move.
  function Run(s: State, ts: seq<Tok>): Option<State>
    decreases |ts|
  {
    if ts == [] then Some(s)
    else match Step(s, ts[0])
         case None => None
         case Some(s') => Run(s', ts[1..])
  }

  // ---- The machine follows the parser, production by production ----

  // Where a production stopped, and whether it succeeded.
  datatype End = End(ok: bool, left: seq<Tok>)

  function EndOf<T>(r: Result<T>): End {
    match r
    case Parsed(_, rest) => End(true, rest)
    case Failed(at) => End(false, at)
  }

  // From state s the machine reads ts up to where the production stopped and
  // is then in state s', or it is stuck there if the production failed.
  ghost predicate Follows(s: State, ts: seq<Tok>, e: End, s': State) {
    Drive(s, ts) == if e.ok then Drive(s', e.left) else (false, e.left)
  }

  lemma OneMove(s: State, ts: seq<Tok>)
    requires ts != [] && Step(s, ts[0]).Some?
    ensures Drive(s, ts) == Drive(Step(s, ts[0]).value, ts[1..])
  {
  }

  lemma NoMove(s: State, ts: seq<Tok>)
    requires ts == [] || Step(s, ts[0]) == None
    ensures Drive(s, ts) == (Accepting(s), ts)
  {
  }

  lemma SameMove(s: State, s': State, ts: seq<Tok>)
    requires Accepting(s) == Accepting(s')
    requires ts != [] ==> Step(s, ts[0]) == Step(s', ts[0])
    ensures Drive(s, ts) == Drive(s', ts)
  {
    hide Step, Accepting;
    if ts != [] && Step(s, ts[0]).Some? {
      OneMove(s, ts);
      OneMove(s', ts);
    } else {
      NoMove(s, ts);
      NoMove(s', ts);
    }
  }

  lemma OneFollows<T>(ts: seq<Tok>, item: Tok -> Option<T>, need: State, after: State)
    requires !Accepting(need)
    requires ts != [] ==> Step(need, ts[0]) == if item(ts[0]).Some? then Some(after) else None
    ensures Follows(need, ts, EndOf(POne(ts, item)), after)
  {
    hide Step, Accepting, Drive;
    if ts != [] && item(ts[0]).Some? {
      OneMove(need, ts);
    } else {
      NoMove(need, ts);
    }
  }

  // In state need the items are read, in state after the commas between them.
  ghost predicate ItemStates<T>(item: Tok -> Option<T>, need: State, after: State) {
    && !Accepting(need)
    && (forall t: Tok :: Step(need, t) == if item(t).Some? then Some(after) else None)
    && (forall t: Tok :: t.kind == TokComma ==> Step(after, t) == Some(need))
  }

  lemma ItemFollows<T>(ts: seq<Tok>, item: Tok -> Option<T>, need: State, after: State)
    requires ItemStates(item, need, after)
    ensures Follows(need, ts, EndOf(POne(ts, item)), after)
    ensures Peek(ts).kind == TokComma ==> Drive(after, ts) == Drive(need, ts[1..])
  {
    hide Step, Accepting, Drive;
    OneFollows(ts, item, need, after);
    if Peek(ts).kind == TokComma {
      OneMove(after, ts);
    }
  }

  // Where a list stops, in terms of its first item and the list after it.
  lemma ListEnd<T>(ts: seq<Tok>, item: Tok -> Option<T>)
    ensures EndOf(PList(ts, item)) ==
            var one := EndOf(POne(ts, item));
            if one.ok && Peek(one.left).kind == TokComma then EndOf(PList(one.left[1..], item)) else one
  {
    hide POne;
  }

  lemma {:induction false} ListFollows<T>(ts: seq<Tok>, item: Tok -> Option<T>, need: State, after: State)
    requires ItemStates(item, need, after)
    ensures Follows(need, ts, EndOf(PList(ts, item)), after)
    ensures EndOf(PList(ts, item)).ok ==> Peek(EndOf(PList(ts, item)).left).kind != TokComma
    decreases |ts|
  {
    hide ItemStates, Drive, POne, PList;
    ItemFollows(ts, item, need, after);
    ListEnd(ts, item);
    var one := EndOf(POne(ts, item));
    if one.ok && Peek(one.left).kind == TokComma {
      ItemFollows(one.left, item, need, after);
      ListFollows(one.left[1..], item, need, after);
    }
  }

  lemma {:induction false} OrsFollow(d: nat, ts: seq<Tok>)
    ensures Follows(NeedUnary(d), ts, EndOf(POrs(ts)), AfterTerm(d))
    ensures POrs(ts).Parsed? ==> !NextIs(POrs(ts).rest, "or") && !NextIs(POrs(ts).rest, "and")
    decreases |ts|, 4
  {
    hide Step, ClauseStep;
    AndsFollow(d, ts);
    if PAnds(ts).Parsed? && NextIs(PAnds(ts).rest, "or") {
      JoinSteps(d, PAnds(ts).rest);
      OrsFollow(d, PAnds(ts).rest[1..]);
    }
  }

  lemma {:induction false} AndsFollow(d: nat, ts: seq<Tok>)
    ensures Follows(NeedUnary(d), ts, EndOf(PAnds(ts)), AfterTerm(d))
    ensures PAnds(ts).Parsed? ==> !NextIs(PAnds(ts).rest, "and")
    decreases |ts|, 3
  {
    hide Step, ClauseStep;
    UnaryFollows(d, ts);
    if PUnary(ts).Parsed? && NextIs(PUnary(ts).rest, "and") {
      JoinSteps(d, PUnary(ts).rest);
      AndsFollow(d, PUnary(ts).rest[1..]);
    }
  }

  lemma JoinSteps(d: nat, ts: seq<Tok>)
    requires NextIs(ts, "and") || NextIs(ts, "or")
    ensures Drive(AfterTerm(d), ts) == Drive(NeedUnary(d), ts[1..])
  {
  }

  lemma {:induction false} UnaryFollows(d: nat, ts: seq<Tok>)
    ensures Follows(NeedUnary(d), ts, EndOf(PUnary(ts)), AfterTerm(d))
    decreases |ts|, 2
  {
    if NextIs(ts, "not") {
      TermFollows(NeedTerm(d), d, ts[1..]);
    } else {
      TermFollows(NeedUnary(d), d, ts);
    }
  }

  lemma {:induction false} TermFollows(s: State, d: nat, ts: seq<Tok>)
    requires s == NeedTerm(d) || (s == NeedUnary(d) && !NextIs(ts, "not"))
    ensures Follows(s, ts, EndOf(PTerm(ts)), AfterTerm(d))
    decreases |ts|, 1
  {
    hide POrs, PPredicate;
    if Peek(ts).kind == TokLParen {
      OrsFollow(d + 1, ts[1..]);
    } else {
      PredicateFollows(s, d, ts);
    }
  }

  lemma PredicateFollows(s: State, d: nat, ts: seq<Tok>)
    requires s == NeedTerm(d) || (s == NeedUnary(d) && !NextIs(ts, "not"))
    requires Peek(ts).kind != TokLParen
    ensures Follows(s, ts, EndOf(PPredicate(ts)), AfterTerm(d))
  {
    hide PValueList, Drive;
    OneFollows(ts, IdentItem, s, NeedOp(d));
    if POne(ts, IdentItem).Parsed? {
      var r1 := ts[1..];
      var next := if r1 != [] && OpOf(r1[0]) == Some(OpIn) then NeedOpen(d) else NeedScalar(d);
      OneFollows(r1, OpOf, NeedOp(d), next);
      if POne(r1, OpOf).Parsed? {
        ValueListFollows(d, r1[1..]);
        OneFollows(r1[1..], ScalarItem, NeedScalar(d), AfterTerm(d));
      }
    }
  }

  lemma ValueListFollows(d: nat, ts: seq<Tok>)
    ensures Follows(NeedOpen(d), ts, EndOf(PValueList(ts)), AfterTerm(d))
  {
    hide PList, ParseFloat, Drive;
    if Peek(ts).kind == TokLParen {
      OneMove(NeedOpen(d), ts);
      var rest := ts[1..];
      var strings := Peek(rest).kind == TokString;
      SameMove(NeedFirst(d), NeedItem(d, strings), rest);
      if strings {
        ListFollows(rest, StringItem, NeedItem(d, true), AfterItem(d, true));
        CloseFollows(d, true, EndOf(PList(rest, StringItem)).left);
      } else {
        ListFollows(rest, NumberItem, NeedItem(d, false), AfterItem(d, false));
        CloseFollows(d, false, EndOf(PList(rest, NumberItem)).left);
      }
    } else {
      NoMove(NeedOpen(d), ts);
    }
  }

  lemma CloseFollows(d: nat, strings: bool, ts: seq<Tok>)
    ensures Peek(ts).kind != TokComma ==>
              Follows(AfterItem(d, strings), ts, EndOf(PKind(ts, TokRParen)), AfterTerm(d))
  {
    hide Drive;
    if Peek(ts).kind == TokRParen {
      OneMove(AfterItem(d, strings), ts);
    } else if Peek(ts).kind != TokComma {
      NoMove(AfterItem(d, strings), ts);
    }
  }

  lemma GroupByFollows(ts: seq<Tok>)
    ensures Follows(Clauses(0), ts, EndOf(PGroupBy(ts)), Clauses(1))
  {
    hide PList;
    if NextIs(ts, "by") {
      ListFollows(ts[1..], IdentItem, NeedGroupIdent, AfterGroupIdent);
    }
  }

  lemma FilterFollows(ts: seq<Tok>)
    ensures Follows(Clauses(1), ts, EndOf(PFilter(ts)), Clauses(2))
  {
    hide POrs;
    if NextIs(ts, "where") {
      OrsFollow(0, ts[1..]);
    }
  }

  lemma WindowFollows(ts: seq<Tok>)
    ensures Follows(Clauses(2), ts, EndOf(PWindow(ts, "over")), Clauses(3))
    ensures Follows(Clauses(3), ts, EndOf(PWindow(ts, "step")), Clauses(4))
  {
    hide DurationItem, Drive;
    if NextIs(ts, "over") {
      OneMove(Clauses(2), ts);
      OneFollows(ts[1..], DurationItem, NeedOver, Clauses(3));
    } else {
      SameMove(Clauses(2), Clauses(3), ts);
    }
    if NextIs(ts, "step") {
      OneMove(Clauses(3), ts);
      OneFollows(ts[1..], DurationItem, NeedStep, Clauses(4));
    } else {
      SameMove(Clauses(3), Clauses(4), ts);
    }
  }

  lemma OrderFollows(ts: seq<Tok>)
    ensures Follows(Clauses(4), ts, EndOf(POrderBy(ts)), Clauses(5))
  {
    hide Drive;
    if NextIs(ts, "order") {
      OneMove(Clauses(4), ts);
      assert ts == [Kw("order")] + ts[1..];
      OrderClauseFollows(ts[1..]);
    } else {
      SameMove(Clauses(4), Clauses(5), ts);
    }
  }

  lemma OrderClauseFollows(ts: seq<Tok>)
    ensures Follows(NeedBy, ts, EndOf(POrderClause([Kw("order")] + ts)), Clauses(5))
  {
    hide Drive;
    assert ([Kw("order")] + ts)[1..] == ts;
    if NextIs(ts, "by") {
      OneMove(NeedBy, ts);
      OneFollows(ts[1..], IdentItem, NeedOrderIdent, AfterOrderIdent);
      if POne(ts[1..], IdentItem).Parsed? {
        DirectionFollows(ts[1..][1..]);
      }
    } else {
      NoMove(NeedBy, ts);
    }
  }

  lemma DirectionFollows(ts: seq<Tok>)
    ensures Follows(AfterOrderIdent, ts, EndOf(PDirection(ts)), Clauses(5))
  {
    hide Drive;
    if NextIs(ts, "asc") || NextIs(ts, "desc") {
      OneMove(AfterOrderIdent, ts);
    } else {
      SameMove(AfterOrderIdent, Clauses(5), ts);
    }
  }

  lemma LimitFollows(ts: seq<Tok>)
    ensures Follows(Clauses(5), ts, EndOf(PLimit(ts)), Clauses(6))
  {
    hide LimitItem, Drive;
    if NextIs(ts, "limit") {
      OneMove(Clauses(5), ts);
      OneFollows(ts[1..], LimitItem, NeedLimit, Clauses(6));
    } else {
      SameMove(Clauses(5), Clauses(6), ts);
    }
  }

  // What parsing a whole token list means for the machine.
  lemma ParseFollows(ts: seq<Tok>)
    ensures match ParseTokens(ts)
            case Parsed(_, _) => Drive(NeedMetric, ts) == (true, [])
            case Failed(at) => Drive(NeedMetric, ts).1 == at && (at == [] ==> !Drive(NeedMetric, ts).0)
  {
    hide PGroupBy, PFilter, PWindow, POrderBy, PLimit, ClauseStep;
    if ts != [] && IdentItem(ts[0]).Some? {
      var r0 := ts[1..];
      GroupByFollows(r0);
      if PGroupBy(r0).Parsed? {
        var r1 := PGroupBy(r0).rest;
        FilterFollows(r1);
        if PFilter(r1).Parsed? {
          TrailerFollows(PFilter(r1).rest);
        }
      }
    }
  }

  lemma TrailerFollows(ts: seq<Tok>)
    ensures forall q: Query :: match PTrailer(ts, q)
                               case Parsed(_, rest) => Drive(Clauses(2), ts) == (true, rest)
                               case Failed(at) => Drive(Clauses(2), ts) == (false, at)
  {
    hide PWindow, POrderBy, PLimit;
    WindowFollows(ts);
    if PWindow(ts, "over").Parsed? {
      var r1 := PWindow(ts, "over").rest;
      WindowFollows(r1);
      if PWindow(r1, "step").Parsed? {
        var r2 := PWindow(r1, "step").rest;
        OrderFollows(r2);
        if POrderBy(r2).Parsed? {
          LimitFollows(POrderBy(r2).rest);
        }
      }
    }
  }

  // ---- Viable prefixes ----

  // Some continuation turns ts into a query the parser accepts.
  ghost predicate Viable(ts: seq<Tok>) {
    exists more: seq<Tok> :: ParseTokens(ts + more).Parsed?
  }

  lemma {:induction false} RunOfDrive(s: State, ts: seq<Tok>)
    ensures var left := Drive(s, ts).1;
            var k := |ts| - |left|;
            && 0 <= k && left == ts[k..]
            && Run(s, ts[..k]).Some?
            && Drive(s, ts).0 == Accepting(Run(s, ts[..k]).value)
            && (left != [] ==> Step(Run(s, ts[..k]).value, left[0]) == None)
    decreases |ts|
  {
    hide Step, Accepting, Run, Drive;
    if ts != [] && Step(s, ts[0]).Some? {
      var next := Step(s, ts[0]).value;
      RunOfDrive(next, ts[1..]);
      DriveMove(s, ts);
      var k := |ts| - |Drive(s, ts).1|;
      assert ts[..k][1..] == ts[1..][..k - 1] && ts[..k][0] == ts[0];
      RunMove(s, ts[..k]);
    } else {
      DriveStop(s, ts);
      assert ts[..0] == [];
    }
  }

  lemma DriveMove(s: State, ts: seq<Tok>)
    requires ts != [] && Step(s, ts[0]).Some?
    ensures Drive(s, ts) == Drive(Step(s, ts[0]).value, ts[1..])
  {
    hide Step, Accepting;
  }

  lemma DriveStop(s: State, ts: seq<Tok>)
    requires ts == [] || Step(s, ts[0]) == None
    ensures Drive(s, ts) == (Accepting(s), ts) && Run(s, []) == Some(s)
  {
    hide Step, Accepting;
  }

  lemma RunMove(s: State, ts: seq<Tok>)
    requires ts != [] && Step(s, ts[0]).Some?
    ensures Run(s, ts) == Run(Step(s, ts[0]).value, ts[1..])
  {
    hide Step, Accepting;
  }

  lemma {:induction false} RunAppend(s: State, a: seq<Tok>, b: seq<Tok>)
    ensures Run(s, a + b) == if Run(s, a) == None then None else Run(Run(s, a).value, b)
    decreases |a|
  {
    hide Step;
    if a == [] {
      assert a + b == b;
    } else if Step(s, a[0]).Some? {
      RunAppend(Step(s, a[0]).value, a[1..], b);
      assert (a + b)[1..] == a[1..] + b;
    }
  }

  // The parser accepts exactly what the machine accepts.
  lemma AcceptsIffRuns(ts: seq<Tok>)
    ensures ParseTokens(ts).Parsed? <==>
            Run(NeedMetric, ts).Some? && Accepting(Run(NeedMetric, ts).value)
  {
    hide Step, Accepting, PQuery;
    ParseFollows(ts);
    RunOfDrive(NeedMetric, ts);
    var left := Drive(NeedMetric, ts).1;
    var k := |ts| - |left|;
    assert ts == ts[..k] + left;
    RunAppend(NeedMetric, ts[..k], left);
  }

  const WORD := Tok(TokIdent, "x")
  const TEXT := Tok(TokString, "")
  const ONE := Tok(TokInt, "1")
  const HOUR := Tok(TokDuration, "1h")

  // A token that takes s one step nearer to the end of a query.
  function Hint(s: State): Tok {
    match s
    case NeedOp(_) => Tok(TokEq, "=")
    case NeedScalar(_) => TEXT
    case NeedOpen(_) => Tok(TokLParen, "(")
    case NeedFirst(_) => TEXT
    case NeedItem(_, strings) => if strings then TEXT else ONE
    case AfterItem(_, _) => Tok(TokRParen, ")")
    case AfterTerm(_) => Tok(TokRParen, ")")
    case NeedOver => HOUR
    case NeedStep => HOUR
    case NeedBy => Kw("by")
    case NeedLimit => ONE
    case _ => WORD
  }

  // How many hints are still needed, at most.
  function Distance(s: State): nat {
    match s
    case AfterTerm(d) => d
    case AfterItem(d, _) => d + 1
    case NeedItem(d, _) => d + 2
    case NeedFirst(d) => d + 2
    case NeedOpen(d) => d + 3
    case NeedScalar(d) => d + 1
    case NeedOp(d) => d + 2
    case NeedTerm(d) => d + 3
    case NeedUnary(d) => d + 3
    case NeedBy => 2
    case _ => if Accepting(s) then 0 else 1
  }

  lemma HintHelps(s: State)
    requires !Accepting(s)
    ensures Step(s, Hint(s)).Some? && Distance(Step(s, Hint(s)).value) < Distance(s)
  {
    OneIsANumber();
    hide ParseFloat, Atoi;
  }

  lemma OneIsANumber()
    ensures NumberItem(ONE).Some? && LimitItem(ONE).Some? && DurationItem(HOUR).Some?
  {
    ParseInteger(1);
    ValueOfDigits(1);
    assert Digits(1) == "1" && HOUR.value[..1] == "1";
  }

  // One way to end a query from each state.
  function Completion(s: State): seq<Tok>
    decreases Distance(s)
  {
    if Accepting(s) then []
    else
      HintHelps(s);
      [Hint(s)] + Completion(Step(s, Hint(s)).value)
  }

  // Every state can still be completed.
  lemma {:induction false} CompletionRuns(s: State)
    ensures Run(s, Completion(s)).Some? && Accepting(Run(s, Completion(s)).value)
    decreases Distance(s)
  {
    hide Step, Accepting, Hint, Distance;
    if !Accepting(s) {
      HintHelps(s);
      var s' := Step(s, Hint(s)).value;
      CompletionRuns(s');
      assert Completion(s)[1..] == Completion(s');
    }
  }

  // A prefix is viable exactly if the machine has a move on each of its tokens.
  lemma ViableIffRuns(ts: seq<Tok>)
    ensures Viable(ts) <==> Run(NeedMetric, ts).Some?
  {
    if Run(NeedMetric, ts).Some? {
      var s := Run(NeedMetric, ts).value;
      CompletionRuns(s);
      RunAppend(NeedMetric, ts, Completion(s));
      AcceptsIffRuns(ts + Completion(s));
    }
    forall more: seq<Tok> | ParseTokens(ts + more).Parsed?
      ensures Run(NeedMetric, ts).Some?
    {
      AcceptsIffRuns(ts + more);
      RunAppend(NeedMetric, ts, more);
    }
  }

  // A parse error is reported at the first token that cannot be continued:
  // what lies before it is the start of some query, and nothing that begins
  // with it included is.
  lemma ErrorAtFirstBadToken(ts: seq<Tok>)
    requires ParseTokens(ts).Failed?
    ensures var k := |ts| - |ParseTokens(ts).at|;
            && 0 <= k && ParseTokens(ts).at == ts[k..]
            && Viable(ts[..k])
            && (k < |ts| ==> !Viable(ts[..k + 1]))
  {
    hide Viable, Drive, Step, Accepting, PQuery;
    ParseFollows(ts);
    RunOfDrive(NeedMetric, ts);
    var k := |ts| - |ParseTokens(ts).at|;
    ViableIffRuns(ts[..k]);
    if k < |ts| {
      ViableIffRuns(ts[..k + 1]);
      assert ts[..k + 1] == ts[..k] + [ts[k]];
      RunAppend(NeedMetric, ts[..k], [ts[k]]);
    }
  }
}
