/** The grammar of conditions, stated on its own, and the proof that the parser
    accepts exactly it. */
module ConditionGrammar {
  import opened Options
  import opened ConditionParser

  // --- the grammar ------------------------------------------------------------------------------

  /** Alternatives, grouped to the left. */
  ghost predicate OrPhrase(ts: seq<Tok>, e: Expr)
    decreases |ts|, 3
  {
    || AndPhrase(ts, e)
    || (e.Or? && exists k | 0 <= k < |ts| ::
          ts[k] == TOr && OrPhrase(ts[..k], e.a) && AndPhrase(ts[k + 1..], e.b))
  }

  /** Conjuncts, binding tighter than alternatives, grouped to the left. */
  ghost predicate AndPhrase(ts: seq<Tok>, e: Expr)
    decreases |ts|, 2
  {
    || NotPhrase(ts, e)
    || (e.And? && exists k | 0 <= k < |ts| ::
          ts[k] == TAnd && AndPhrase(ts[..k], e.a) && NotPhrase(ts[k + 1..], e.b))
  }

  /** Negation binds tightest. */
  ghost predicate NotPhrase(ts: seq<Tok>, e: Expr)
    decreases |ts|, 1
  {
    || Primary(ts, e)
    || (e.Not? && ts != [] && ts[0] == TNot && NotPhrase(ts[1..], e.e))
  }

  ghost predicate Primary(ts: seq<Tok>, e: Expr)
    decreases |ts|, 0
  {
    || (e.Ref? && ts == [TIdent(e.name)])
    || (e.Quant? && ts == CountToks(e.atLeast) + [TOf] + TargetToks(e.target))
    || (|ts| >= 2 && ts[0] == TOpen && ts[|ts| - 1] == TClose && OrPhrase(ts[1..|ts| - 1], e))
  }

  function CountToks(atLeast: Option<nat>): seq<Tok> {
    match atLeast
    case None => [TAll]
    case Some(n) => [TNum(n)]
  }

  function TargetToks(t: Target): seq<Tok> {
    match t
    case Everyone => [TThem]
    case Pattern(p) => [TIdent(p)]
  }

  lemma JoinedOr(a: seq<Tok>, b: seq<Tok>, x: Expr, y: Expr)
    requires OrPhrase(a, x) && AndPhrase(b, y)
    ensures OrPhrase(a + [TOr] + b, Or(x, y))
  {
    var ts := a + [TOr] + b;
    assert ts[|a|] == TOr && ts[..|a|] == a && ts[|a| + 1..] == b;
  }

  lemma JoinedAnd(a: seq<Tok>, b: seq<Tok>, x: Expr, y: Expr)
    requires AndPhrase(a, x) && NotPhrase(b, y)
    ensures AndPhrase(a + [TAnd] + b, And(x, y))
  {
    var ts := a + [TAnd] + b;
    assert ts[|a|] == TAnd && ts[..|a|] == a && ts[|a| + 1..] == b;
  }

  // --- everything the parser accepts is in the grammar ---------------------------------------------

  lemma {:induction false} OrSound(ts: seq<Tok>) returns (front: seq<Tok>)
    requires OrSpec(ts).Parsed?
    ensures ts == front + OrSpec(ts).rest && OrPhrase(front, OrSpec(ts).value)
    decreases |ts|, 4
  {
    front := AndSound(ts);
    front := OrRestSound(front, AndSpec(ts).value, AndSpec(ts).rest);
  }

  lemma {:induction false} OrRestSound(done: seq<Tok>, lhs: Expr, ts: seq<Tok>) returns (front: seq<Tok>)
    requires OrPhrase(done, lhs) && OrRest(lhs, ts).Parsed?
    ensures done + ts == front + OrRest(lhs, ts).rest && OrPhrase(front, OrRest(lhs, ts).value)
    decreases |ts|, 5
  {
    hide OrPhrase, AndPhrase;
    front := done;
    if First(ts) == Some(TOr) {
      var rhs := AndSpec(ts[1..]);
      var more := AndSound(ts[1..]);
      var both := done + [TOr] + more;
      JoinedOr(done, more, lhs, rhs.value);
      front := OrRestSound(both, Or(lhs, rhs.value), rhs.rest);
      assert done + ts == both + rhs.rest;
    }
  }

  lemma {:induction false} AndSound(ts: seq<Tok>) returns (front: seq<Tok>)
    requires AndSpec(ts).Parsed?
    ensures ts == front + AndSpec(ts).rest && AndPhrase(front, AndSpec(ts).value)
    decreases |ts|, 2
  {
    front := NotSound(ts);
    front := AndRestSound(front, NotSpec(ts).value, NotSpec(ts).rest);
  }

  lemma {:induction false} AndRestSound(done: seq<Tok>, lhs: Expr, ts: seq<Tok>) returns (front: seq<Tok>)
    requires AndPhrase(done, lhs) && AndRest(lhs, ts).Parsed?
    ensures done + ts == front + AndRest(lhs, ts).rest && AndPhrase(front, AndRest(lhs, ts).value)
    decreases |ts|, 3
  {
    hide AndPhrase, NotPhrase;
    front := done;
    if First(ts) == Some(TAnd) {
      var rhs := NotSpec(ts[1..]);
      var more := NotSound(ts[1..]);
      var both := done + [TAnd] + more;
      JoinedAnd(done, more, lhs, rhs.value);
      front := AndRestSound(both, And(lhs, rhs.value), rhs.rest);
      assert done + ts == both + rhs.rest;
    }
  }

  lemma {:induction false} NotSound(ts: seq<Tok>) returns (front: seq<Tok>)
    requires NotSpec(ts).Parsed?
    ensures ts == front + NotSpec(ts).rest && NotPhrase(front, NotSpec(ts).value)
    decreases |ts|, 1
  {
    if First(ts) == Some(TNot) {
      var more := NotSound(ts[1..]);
      front := [TNot] + more;
      assert front[1..] == more;
    } else {
      front := PrimarySound(ts);
    }
  }

  lemma {:induction false} PrimarySound(ts: seq<Tok>) returns (front: seq<Tok>)
    requires PrimarySpec(ts).Parsed?
    ensures ts == front + PrimarySpec(ts).rest && Primary(front, PrimarySpec(ts).value)
    decreases |ts|, 0
  {
    if ts[0] == TOpen {
      var inner := OrSound(ts[1..]);
      front := [TOpen] + inner + [TClose];
      assert front[1..|front| - 1] == inner;
    } else if ts[0].TIdent? {
      front := [ts[0]];
    } else {
      front := ts[..3];
    }
  }

  // --- everything in the grammar is accepted ----------------------------------------------------------

  /** A phrase of alternatives is read as a whole, whatever follows except `and`. */
  lemma {:induction false} OrComplete(ts: seq<Tok>, e: Expr, rest: seq<Tok>)
    requires OrPhrase(ts, e) && First(rest) != Some(TAnd)
    ensures OrSpec(ts + rest) == OrRest(e, rest)
    decreases |ts|, 3
  {
    if AndPhrase(ts, e) {
      AndComplete(ts, e, rest);
    } else {
      var k :| 0 <= k < |ts| && ts[k] == TOr && OrPhrase(ts[..k], e.a) && AndPhrase(ts[k + 1..], e.b);
      var tail := [TOr] + (ts[k + 1..] + rest);
      assert ts + rest == ts[..k] + tail && tail[1..] == ts[k + 1..] + rest;
      OrComplete(ts[..k], e.a, tail);
      AndComplete(ts[k + 1..], e.b, rest);
    }
  }

  lemma {:induction false} AndComplete(ts: seq<Tok>, e: Expr, rest: seq<Tok>)
    requires AndPhrase(ts, e)
    ensures AndSpec(ts + rest) == AndRest(e, rest)
    decreases |ts|, 2
  {
    if NotPhrase(ts, e) {
      NotComplete(ts, e, rest);
    } else {
      var k :| 0 <= k < |ts| && ts[k] == TAnd && AndPhrase(ts[..k], e.a) && NotPhrase(ts[k + 1..], e.b);
      var tail := [TAnd] + (ts[k + 1..] + rest);
      assert ts + rest == ts[..k] + tail && tail[1..] == ts[k + 1..] + rest;
      AndComplete(ts[..k], e.a, tail);
      NotComplete(ts[k + 1..], e.b, rest);
    }
  }

  lemma {:induction false} NotComplete(ts: seq<Tok>, e: Expr, rest: seq<Tok>)
    requires NotPhrase(ts, e)
    ensures NotSpec(ts + rest) == Parsed(e, rest)
    decreases |ts|, 1
  {
    if Primary(ts, e) {
      PrimaryComplete(ts, e, rest);
    } else {
      assert (ts + rest)[1..] == ts[1..] + rest;
      NotComplete(ts[1..], e.e, rest);
    }
  }

  /** Reading a primary is not affected by what follows it: a phrase in parentheses
      ends at its closing one. */
  lemma {:induction false} PrimaryComplete(ts: seq<Tok>, e: Expr, rest: seq<Tok>)
    requires Primary(ts, e)
    ensures PrimarySpec(ts + rest) == Parsed(e, rest)
    ensures ts != [] && ts[0] != TNot
    decreases |ts|, 0
  {
    if e.Ref? && ts == [TIdent(e.name)] {
      assert (ts + rest)[1..] == rest;
    } else if e.Quant? && ts == CountToks(e.atLeast) + [TOf] + TargetToks(e.target) {
      var all := ts + rest;
      assert all[1..] == [TOf] + TargetToks(e.target) + rest;
      assert all[1..][1..] == TargetToks(e.target) + rest;
      assert all[1..][2..] == rest;
    } else {
      var inner := ts[1..|ts| - 1];
      var tail := [TClose] + rest;
      assert (ts + rest)[1..] == inner + tail && tail[1..] == rest;
      OrComplete(inner, e, tail);
    }
  }

  // --- the main statements --------------------------------------------------------------------------

  /** The parser accepts exactly the grammar, and returns the tree the grammar
      gives. */
  lemma ParsesExactlyTheGrammar(ts: seq<Tok>, e: Expr)
    ensures ParseSpec(ts) == Ok(e) <==> OrPhrase(ts, e)
  {
    if ParseSpec(ts) == Ok(e) {
      var front := OrSound(ts);
      assert front == ts;
    }
    if OrPhrase(ts, e) {
      assert ts + [] == ts;
      OrComplete(ts, e, []);
    }
  }

  /** No token list has two trees. */
  lemma OneTree(ts: seq<Tok>, e1: Expr, e2: Expr)
    requires OrPhrase(ts, e1) && OrPhrase(ts, e2)
    ensures e1 == e2
  {
    ParsesExactlyTheGrammar(ts, e1);
    ParsesExactlyTheGrammar(ts, e2);
  }

  /** A refused token list is outside the grammar. */
  lemma RefusedHasNoTree(ts: seq<Tok>)
    ensures ParseSpec(ts).Err? <==> !exists e :: OrPhrase(ts, e)
  {
    if ParseSpec(ts).Ok? {
      ParsesExactlyTheGrammar(ts, ParseSpec(ts).value);
    }
    if e :| OrPhrase(ts, e) {
      ParsesExactlyTheGrammar(ts, e);
    }
  }

  // --- printing ---------------------------------------------------------------------------------------

  /** An expression written with parentheses only where the grammar needs them. */
  function PrintOr(e: Expr): seq<Tok>
    decreases e, 3
  {
    match e
    case Or(a, b) => PrintOr(a) + [TOr] + PrintAnd(b)
    case _ => PrintAnd(e)
  }

  function PrintAnd(e: Expr): seq<Tok>
    decreases e, 2
  {
    match e
    case And(a, b) => PrintAnd(a) + [TAnd] + PrintNot(b)
    case _ => PrintNot(e)
  }

  function PrintNot(e: Expr): seq<Tok>
    decreases e, 1
  {
    match e
    case Not(inner) => [TNot] + PrintNot(inner)
    case _ => PrintPrimary(e)
  }

  function PrintPrimary(e: Expr): seq<Tok>
    decreases e, 0
  {
    match e
    case Ref(name) => [TIdent(name)]
    case Quant(atLeast, target) => CountToks(atLeast) + [TOf] + TargetToks(target)
    case Not(inner) => [TOpen] + ([TNot] + PrintNot(inner)) + [TClose]
    case And(a, b) => [TOpen] + (PrintAnd(a) + [TAnd] + PrintNot(b)) + [TClose]
    case Or(a, b) => [TOpen] + (PrintOr(a) + [TOr] + PrintAnd(b)) + [TClose]
  }

  lemma Enclosed(ts: seq<Tok>, e: Expr)
    requires OrPhrase(ts, e)
    ensures Primary([TOpen] + ts + [TClose], e)
  {
    var all := [TOpen] + ts + [TClose];
    assert all[1..|all| - 1] == ts;
  }

  /** Each kind of phrase includes the tighter ones. */
  lemma Wider(ts: seq<Tok>, e: Expr)
    requires NotPhrase(ts, e)
    ensures AndPhrase(ts, e) && OrPhrase(ts, e)
  {
  }

  lemma {:induction false} PrintedIsPhrase(e: Expr)
    ensures OrPhrase(PrintOr(e), e) && AndPhrase(PrintAnd(e), e)
    ensures NotPhrase(PrintNot(e), e) && Primary(PrintPrimary(e), e)
  {
    match e
    case Ref(name) =>
      assert Primary(PrintNot(e), e);
      Wider(PrintNot(e), e);
    case Quant(atLeast, target) =>
      assert Primary(PrintNot(e), e);
      Wider(PrintNot(e), e);
    case Not(inner) =>
      PrintedIsPhrase(inner);
      assert ([TNot] + PrintNot(inner))[1..] == PrintNot(inner);
      assert NotPhrase(PrintNot(e), e);
      Wider(PrintNot(e), e);
      Enclosed([TNot] + PrintNot(inner), e);
    case And(a, b) =>
      PrintedIsPhrase(a);
      PrintedIsPhrase(b);
      JoinedAnd(PrintAnd(a), PrintNot(b), a, b);
      Enclosed(PrintAnd(a) + [TAnd] + PrintNot(b), e);
      assert Primary(PrintNot(e), e);
    case Or(a, b) =>
      PrintedIsPhrase(a);
      PrintedIsPhrase(b);
      JoinedOr(PrintOr(a), PrintAnd(b), a, b);
      Enclosed(PrintOr(a) + [TOr] + PrintAnd(b), e);
      assert Primary(PrintNot(e), e);
      Wider(PrintNot(e), e);
  }

  /** Parsing the printed form of any expression returns it. */
  lemma PrintThenParse(e: Expr)
    ensures ParseSpec(PrintOr(e)) == Ok(e)
  {
    PrintedIsPhrase(e);
    ParsesExactlyTheGrammar(PrintOr(e), e);
  }
}
