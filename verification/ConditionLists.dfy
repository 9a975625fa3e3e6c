/** When joining a list of conditions with `or` can hide a fault of one of them. */
module ConditionLists {
  import opened ConditionParser
  import opened ConditionGrammar
  import opened ConditionWords
  import opened ConditionEval

  // --- counting parentheses ---------------------------------------------------------------------

  function Turn(t: Tok): int {
    match t
    case TOpen => 1
    case TClose => -1
    case _ => 0
  }

  /** The parentheses opened and not closed. */
  function Depth(ts: seq<Tok>): int {
    if ts == [] then 0 else Depth(ts[..|ts| - 1]) + Turn(ts[|ts| - 1])
  }

  ghost predicate NeverBelow(ts: seq<Tok>) {
    forall k: nat | k <= |ts| :: Depth(ts[..k]) >= 0
  }

  /** Every parenthesis is closed, and none is closed before it is opened. */
  ghost predicate Balanced(ts: seq<Tok>) {
    Depth(ts) == 0 && NeverBelow(ts)
  }

  /** `tok` stands only inside parentheses. */
  ghost predicate Inside(tok: Tok, ts: seq<Tok>) {
    forall k: nat | k < |ts| && ts[k] == tok :: Depth(ts[..k]) > 0
  }

  lemma {:induction false} DepthJoin(a: seq<Tok>, b: seq<Tok>)
    ensures Depth(a + b) == Depth(a) + Depth(b)
  {
    if b == [] {
      assert a + b == a;
    } else {
      DepthJoin(a, b[..|b| - 1]);
      assert (a + b)[..|a + b| - 1] == a + b[..|b| - 1];
    }
  }

  lemma DepthOne(t: Tok)
    ensures Depth([t]) == Turn(t)
  {
    assert [t][..0] == [] && Depth([]) == 0;
  }

  /** The depth within the second of two joined lists. */
  lemma DepthWithin(a: seq<Tok>, b: seq<Tok>, k: nat)
    requires |a| <= k <= |a + b|
    ensures Depth((a + b)[..k]) == Depth(a) + Depth(b[..k - |a|])
  {
    hide Depth;
    assert (a + b)[..k] == a + b[..k - |a|];
    DepthJoin(a, b[..k - |a|]);
  }

  lemma BalancedJoin(a: seq<Tok>, b: seq<Tok>)
    requires Balanced(a) && Balanced(b)
    ensures Balanced(a + b)
  {
    hide Depth;
    DepthJoin(a, b);
    forall k: nat | k <= |a + b| ensures Depth((a + b)[..k]) >= 0 {
      if k <= |a| {
        assert (a + b)[..k] == a[..k];
      } else {
        DepthWithin(a, b, k);
      }
    }
  }

  lemma InsideJoin(tok: Tok, a: seq<Tok>, b: seq<Tok>)
    requires Depth(a) == 0 && Inside(tok, a) && Inside(tok, b)
    ensures Inside(tok, a + b)
  {
    hide Depth;
    forall k: nat | k < |a + b| && (a + b)[k] == tok ensures Depth((a + b)[..k]) > 0 {
      if k < |a| {
        assert (a + b)[..k] == a[..k];
      } else {
        DepthWithin(a, b, k);
      }
    }
  }

  lemma BalancedOne(t: Tok)
    requires Turn(t) == 0
    ensures Balanced([t])
    ensures forall tok | tok != t :: Inside(tok, [t])
  {
    DepthOne(t);
    forall k: nat | k <= 1 ensures Depth([t][..k]) >= 0 {
      assert [t][..0] == [] && [t][..1] == [t];
    }
  }

  /** The depth inside an enclosed list. */
  lemma DepthEnclosed(ts: seq<Tok>, k: nat)
    requires 1 <= k <= |ts| + 1
    ensures Depth(([TOpen] + ts + [TClose])[..k]) == 1 + Depth(ts[..k - 1])
  {
    DepthOne(TOpen);
    hide Depth;
    assert ([TOpen] + ts + [TClose])[..k] == [TOpen] + ts[..k - 1];
    DepthJoin([TOpen], ts[..k - 1]);
  }

  lemma EnclosedBalanced(ts: seq<Tok>)
    requires Balanced(ts)
    ensures Balanced([TOpen] + ts + [TClose])
    ensures Inside(TAnd, [TOpen] + ts + [TClose]) && Inside(TOr, [TOpen] + ts + [TClose])
  {
    DepthOne(TOpen);
    DepthOne(TClose);
    assert Depth([]) == 0;
    hide Depth;
    var all := [TOpen] + ts + [TClose];
    DepthJoin([TOpen] + ts, [TClose]);
    DepthJoin([TOpen], ts);
    forall k: nat | k <= |all| ensures Depth(all[..k]) >= 0 && (0 < k < |all| ==> Depth(all[..k]) > 0) {
      if k == 0 {
        assert all[..0] == [];
      } else if k == |all| {
        assert all[..k] == all;
      } else {
        DepthEnclosed(ts, k);
      }
    }
  }

  // --- phrases are balanced, and split only outside parentheses --------------------------------

  lemma {:induction false} OrBalanced(ts: seq<Tok>, e: Expr)
    requires OrPhrase(ts, e)
    ensures Balanced(ts)
    decreases |ts|, 3
  {
    hide Balanced, Inside, Primary, NotPhrase;
    if AndPhrase(ts, e) {
      AndBalanced(ts, e);
    } else {
      var k :| 0 <= k < |ts| && ts[k] == TOr && OrPhrase(ts[..k], e.a) && AndPhrase(ts[k + 1..], e.b);
      OrBalanced(ts[..k], e.a);
      AndBalanced(ts[k + 1..], e.b);
      BalancedOne(TOr);
      BalancedJoin(ts[..k], [TOr]);
      BalancedJoin(ts[..k] + [TOr], ts[k + 1..]);
      assert ts == ts[..k] + [TOr] + ts[k + 1..];
    }
  }

  /** An `or` in a conjunction is in parentheses. */
  lemma {:induction false} AndBalanced(ts: seq<Tok>, e: Expr)
    requires AndPhrase(ts, e)
    ensures Balanced(ts) && Inside(TOr, ts)
    decreases |ts|, 2
  {
    hide NeverBelow, Inside, Primary;
    if NotPhrase(ts, e) {
      NotBalanced(ts, e);
    } else {
      var k :| 0 <= k < |ts| && ts[k] == TAnd && AndPhrase(ts[..k], e.a) && NotPhrase(ts[k + 1..], e.b);
      hide AndPhrase, NotPhrase;
      AndBalanced(ts[..k], e.a);
      NotBalanced(ts[k + 1..], e.b);
      AndJoined(ts[..k], ts[k + 1..]);
      assert ts == ts[..k] + [TAnd] + ts[k + 1..];
    }
  }

  lemma AndJoined(a: seq<Tok>, b: seq<Tok>)
    requires Balanced(a) && Balanced(b) && Inside(TOr, a) && Inside(TOr, b)
    ensures Balanced(a + [TAnd] + b) && Inside(TOr, a + [TAnd] + b)
  {
    hide NeverBelow, Inside;
    BalancedOne(TAnd);
    BalancedJoin(a, [TAnd]);
    BalancedJoin(a + [TAnd], b);
    InsideJoin(TOr, a, [TAnd]);
    InsideJoin(TOr, a + [TAnd], b);
  }

  /** An `and` or `or` in a negation is in parentheses. */
  lemma {:induction false} NotBalanced(ts: seq<Tok>, e: Expr)
    requires NotPhrase(ts, e)
    ensures Balanced(ts) && Inside(TAnd, ts) && Inside(TOr, ts)
    decreases |ts|, 1
  {
    hide NeverBelow, Inside;
    if Primary(ts, e) {
      PrimaryBalanced(ts, e);
    } else {
      NotBalanced(ts[1..], e.e);
      BalancedOne(TNot);
      BalancedJoin([TNot], ts[1..]);
      InsideJoin(TAnd, [TNot], ts[1..]);
      InsideJoin(TOr, [TNot], ts[1..]);
      assert ts == [TNot] + ts[1..];
    }
  }

  lemma {:induction false} PrimaryBalanced(ts: seq<Tok>, e: Expr)
    requires Primary(ts, e)
    ensures Balanced(ts) && Inside(TAnd, ts) && Inside(TOr, ts)
    decreases |ts|, 0
  {
    hide NeverBelow, Inside, Depth;
    if e.Ref? && ts == [TIdent(e.name)] {
      BalancedOne(ts[0]);
    } else if e.Quant? && ts == CountToks(e.atLeast) + [TOf] + TargetToks(e.target) {
      CountBalanced(ts[0], ts[1], ts[2]);
      assert ts == [ts[0]] + [ts[1]] + [ts[2]];
    } else {
      var inner := ts[1..|ts| - 1];
      assert ts == [TOpen] + inner + [TClose];
      OrBalanced(inner, e);
      EnclosedBalanced(inner);
    }
  }

  lemma CountBalanced(a: Tok, b: Tok, c: Tok)
    requires forall t | t in {a, b, c} :: Turn(t) == 0 && t != TAnd && t != TOr
    ensures var ts := [a] + [b] + [c]; Balanced(ts) && Inside(TAnd, ts) && Inside(TOr, ts)
  {
    hide NeverBelow, Inside, Depth;
    BalancedOne(a);
    BalancedOne(b);
    BalancedOne(c);
    BalancedJoin([a], [b]);
    BalancedJoin([a] + [b], [c]);
    forall tok | tok == TAnd || tok == TOr ensures Inside(tok, [a] + [b] + [c]) {
      InsideJoin(tok, [a], [b]);
      InsideJoin(tok, [a] + [b], [c]);
    }
  }

  // --- taking a joined phrase apart ---------------------------------------------------------------

  /** What stands in one pair of parentheses is a phrase, when it is balanced. */
  lemma EnclosedPhrase(ts: seq<Tok>, e: Expr)
    requires Balanced(ts) && AndPhrase([TOpen] + ts + [TClose], e)
    ensures OrPhrase(ts, e)
  {
    hide Depth, NeverBelow, OrPhrase;
    var all := [TOpen] + ts + [TClose];
    EnclosedBalanced(ts);
    if !NotPhrase(all, e) {
      var k: nat :| k < |all| && all[k] == TAnd && AndPhrase(all[..k], e.a) && NotPhrase(all[k + 1..], e.b);
      AndBalanced(all[..k], e.a);
      assert false;
    }
    assert NotPhrase(all, e) && all[0] == TOpen;
    assert Primary(all, e);
    if e.Quant? {
      assert (CountToks(e.atLeast) + [TOf] + TargetToks(e.target))[0] == CountToks(e.atLeast)[0];
    }
    assert all[1..|all| - 1] == ts;
  }

  lemma OnePart(ts: seq<Tok>, e: Expr)
    requires Balanced(ts) && OrPhrase([TOpen] + ts + [TClose], e)
    ensures OrPhrase(ts, e)
  {
    hide Depth, NeverBelow, AndPhrase;
    var all := [TOpen] + ts + [TClose];
    EnclosedBalanced(ts);
    if !AndPhrase(all, e) {
      var k: nat :| k < |all| && all[k] == TOr && OrPhrase(all[..k], e.a) && AndPhrase(all[k + 1..], e.b);
      OrBalanced(all[..k], e.a);
      assert false;
    }
    hide OrPhrase;
    EnclosedPhrase(ts, e);
  }

  /** An `or` before another one outside parentheses is not the last. */
  lemma NotTheLastOr(front: seq<Tok>, back: seq<Tok>, k: nat, x: Expr, y: Expr)
    requires Balanced(front) && k < |front| && front[k] == TOr && OrPhrase(front[..k], x)
    ensures !AndPhrase(front[k + 1..] + [TOr] + back, y)
  {
    OrBalanced(front[..k], x);
    DepthOne(TOr);
    hide Depth, NeverBelow, OrPhrase;
    var after := front[k + 1..];
    assert front == front[..k] + [TOr] + after;
    DepthJoin(front[..k] + [TOr], after);
    DepthJoin(front[..k], [TOr]);
    NotOneConjunction(after, back, y);
  }

  /** An `or` outside parentheses does not stand in a conjunction. */
  lemma NotOneConjunction(front: seq<Tok>, back: seq<Tok>, e: Expr)
    requires Depth(front) == 0
    ensures !AndPhrase(front + [TOr] + back, e)
  {
    hide Depth, AndPhrase;
    var all := front + [TOr] + back;
    assert all[..|front|] == front && all[|front|] == TOr;
    if AndPhrase(all, e) {
      AndBalanced(all, e);
      assert false;
    }
  }

  /** An `or` of the enclosed part does not end a phrase. */
  lemma NotInside(front: seq<Tok>, ts: seq<Tok>, k: nat, x: Expr)
    requires Balanced(front) && Balanced(ts)
    requires var all := front + [TOr] + ([TOpen] + ts + [TClose]);
             |front| < k < |all| && all[k] == TOr
    ensures !OrPhrase((front + [TOr] + ([TOpen] + ts + [TClose]))[..k], x)
  {
    var part := [TOpen] + ts + [TClose];
    var all := front + [TOr] + part;
    DepthOne(TOr);
    EnclosedBalanced(ts);
    hide Depth, NeverBelow, OrPhrase;
    DepthJoin(front, [TOr]);
    DepthWithin(front + [TOr], part, k);
    assert part[k - |front| - 1] == TOr;
    assert Depth(all[..k]) > 0;
    if OrPhrase(all[..k], x) {
      OrBalanced(all[..k], x);
      assert false;
    }
  }

  /** A phrase whose last alternative is enclosed splits just there. */
  lemma LastPart(front: seq<Tok>, ts: seq<Tok>, e: Expr)
    requires Balanced(front) && Balanced(ts)
    requires OrPhrase(front + [TOr] + ([TOpen] + ts + [TClose]), e)
    ensures e.Or? && OrPhrase(front, e.a) && OrPhrase(ts, e.b)
  {
    hide Depth, NeverBelow, Inside, AndPhrase;
    var part := [TOpen] + ts + [TClose];
    var all := front + [TOr] + part;
    NotOneConjunction(front, part, e);
    var k: nat :| k < |all| && all[k] == TOr && OrPhrase(all[..k], e.a) && AndPhrase(all[k + 1..], e.b);
    hide OrPhrase, Balanced;
    if k < |front| {
      assert all[..k] == front[..k] && all[k + 1..] == front[k + 1..] + [TOr] + part;
      NotTheLastOr(front, part, k, e.a, e.b);
    } else if k > |front| {
      NotInside(front, ts, k, e.a);
    } else {
      assert all[..k] == front && all[k + 1..] == part;
      EnclosedPhrase(ts, e.b);
    }
  }

  // --- the exact condition --------------------------------------------------------------------------

  ghost predicate AllBalanced(items: seq<Yaml>) {
    forall i | 0 <= i < |items| && items[i].Text? :: Balanced(Toks(items[i].text))
  }

  lemma PartsBut(items: seq<Yaml>)
    requires items != []
    ensures var init, last := items[..|items| - 1], items[|items| - 1];
            Parts(items) == Parts(init) + (if last.Text? then ["(" + last.text + ")"] else [])
  {
  }

  /** The joined text of a list, its last string apart. */
  lemma JoinLast(items: seq<Yaml>)
    requires items != [] && items[|items| - 1].Text?
    ensures Parts(items) != []
    ensures var init, last := Parts(items[..|items| - 1]), items[|items| - 1];
            var part := [TOpen] + Toks(last.text) + [TClose];
            Toks(JoinOr(Parts(items))) == if init == [] then part else Toks(JoinOr(init)) + [TOr] + part
  {
    hide Toks, Parts;
    var init, last := Parts(items[..|items| - 1]), items[|items| - 1];
    PartsBut(items);
    ToksInParens(last.text);
    var parts := Parts(items);
    if init == [] {
      assert parts == ["(" + last.text + ")"];
    } else {
      assert parts[..|parts| - 1] == init;
      ToksOrJoin(JoinOr(init), "(" + last.text + ")");
    }
  }

  lemma AllBut(items: seq<Yaml>)
    requires items != []
    ensures var init, last := items[..|items| - 1], items[|items| - 1];
            && (AllBalanced(items) <==> AllBalanced(init) && (last.Text? ==> Balanced(Toks(last.text))))
            && (AllParse(items) <==> AllParse(init) && (last.Text? ==> ParseText(last.text).Ok?))
  {
    hide Balanced, Toks, ParseText;
    var init, last := items[..|items| - 1], items[|items| - 1];
    assert forall i | 0 <= i < |init| :: init[i] == items[i];
    assert forall i | 0 <= i < |items| :: items[i] == if i < |init| then init[i] else last;
  }

  lemma {:induction false} JoinedBalanced(items: seq<Yaml>)
    requires AllBalanced(items) && Parts(items) != []
    ensures Balanced(Toks(JoinOr(Parts(items))))
  {
    var init, last := items[..|items| - 1], items[|items| - 1];
    PartsBut(items);
    hide Toks, Balanced, Parts, JoinOr, AllBalanced;
    AllBut(items);
    if Parts(init) != [] {
      JoinedBalanced(init);
    }
    if last.Text? {
      JoinLast(items);
      EnclosedBalanced(Toks(last.text));
      if Parts(init) != [] {
        BalancedOne(TOr);
        BalancedJoin(Toks(JoinOr(Parts(init))), [TOr]);
        BalancedJoin(Toks(JoinOr(Parts(init))) + [TOr], [TOpen] + Toks(last.text) + [TClose]);
      }
    } else {
      assert Parts(items) == Parts(init);
    }
  }

  /** The strings of a joined phrase are conditions, when each is balanced. */
  lemma {:induction false} PartsParse(items: seq<Yaml>, e: Expr)
    requires AllBalanced(items) && Parts(items) != [] && OrPhrase(Toks(JoinOr(Parts(items))), e)
    ensures AllParse(items)
  {
    var init, last := items[..|items| - 1], items[|items| - 1];
    PartsBut(items);
    NoParts(init);
    assert Parts(init) == [] ==> AllParse(init);
    hide Toks, Balanced, Parts, JoinOr, AllBalanced, AllParse, OrPhrase, ParseText;
    AllBut(items);
    if !last.Text? {
      assert Parts(items) == Parts(init);
      PartsParse(init, e);
    } else {
      JoinLast(items);
      if Parts(init) == [] {
        OnePart(Toks(last.text), e);
        TextIsPhrase(last.text, e);
      } else {
        JoinedBalanced(init);
        LastPart(Toks(JoinOr(Parts(init))), Toks(last.text), e);
        PartsParse(init, e.a);
        TextIsPhrase(last.text, e.b);
      }
    }
  }

  lemma AllParseBalanced(items: seq<Yaml>)
    requires AllParse(items)
    ensures AllBalanced(items)
  {
    hide Toks, Balanced, ParseText, OrPhrase;
    forall i | 0 <= i < |items| && items[i].Text? ensures Balanced(Toks(items[i].text)) {
      var e := ParseText(items[i].text).value;
      TextIsPhrase(items[i].text, e);
      OrBalanced(Toks(items[i].text), e);
    }
  }

  /** The strings of a list are conditions, each on its own, exactly when the joined
      text is one and the parentheses of each string are balanced. */
  lemma JoinedParsesExactly(items: seq<Yaml>)
    requires exists i :: 0 <= i < |items| && items[i].Text?
    ensures ConditionToString(List(items)).Ok?
    ensures AllParse(items) <==>
              ParseText(ConditionToString(List(items)).value).Ok? && AllBalanced(items)
  {
    NoParts(items);
    JoinedIs(items);
    hide Toks, Balanced, Parts, JoinOr, AllBalanced, OrPhrase, ParseText, AllParse;
    if AllParse(items) {
      AllParseBalanced(items);
      ListMeansOr(items, map[], [], []);
    } else if ParseText(ConditionToString(List(items)).value).Ok? && AllBalanced(items) {
      var e := ParseText(JoinOr(Parts(items))).value;
      TextIsPhrase(JoinOr(Parts(items)), e);
      PartsParse(items, e);
    }
  }
}
