/** What a condition means for one event, and why a list of conditions means `or`. */
module ConditionEval {
  import opened Options
  import opened ConditionParser
  import opened ConditionGrammar
  import opened ConditionWords

  /** Per-selection results. */
  type Results = map<string, bool>

  predicate Hit(results: Results, name: string) {
    name in results && results[name]
  }

  predicate Picks(t: Target, name: string) {
    match t
    case Everyone => true
    case Pattern(p) => if p != "" && p[|p| - 1] == '*' then p[..|p| - 1] <= name else name == p
  }

  function Select(t: Target, names: seq<string>): seq<string> {
    if names == [] then []
    else Select(t, names[..|names| - 1]) + (if Picks(t, names[|names| - 1]) then [names[|names| - 1]] else [])
  }

  function Hits(results: Results, names: seq<string>): nat {
    if names == [] then 0
    else Hits(results, names[..|names| - 1]) + (if Hit(results, names[|names| - 1]) then 1 else 0)
  }

  predicate Eval(e: Expr, results: Results, names: seq<string>) {
    match e
    case Ref(n) => Hit(results, n)
    case Not(inner) => !Eval(inner, results, names)
    case And(a, b) => Eval(a, results, names) && Eval(b, results, names)
    case Or(a, b) => Eval(a, results, names) || Eval(b, results, names)
    case Quant(atLeast, target) =>
      var selected := Select(target, names);
      var hits := Hits(results, selected);
      (match atLeast
       case None => selected != [] && hits == |selected|
       case Some(k) => hits >= k)
  }

  lemma {:induction false} SelectTogether(t: Target, a: seq<string>, b: seq<string>)
    ensures Select(t, a + b) == Select(t, a) + Select(t, b)
  {
    if b == [] {
      assert a + b == a;
    } else {
      var init := b[..|b| - 1];
      SelectTogether(t, a, init);
      assert (a + b)[..|a + b| - 1] == a + init;
    }
  }

  lemma {:induction false} HitsTogether(results: Results, a: seq<string>, b: seq<string>)
    ensures Hits(results, a + b) == Hits(results, a) + Hits(results, b)
  {
    if b == [] {
      assert a + b == a;
    } else {
      var init := b[..|b| - 1];
      HitsTogether(results, a, init);
      assert (a + b)[..|a + b| - 1] == a + init;
    }
  }

  // --- what the quantifiers count ---------------------------------------------------------------

  predicate Distinct(names: seq<string>) {
    forall i, j | 0 <= i < j < |names| :: names[i] != names[j]
  }

  /** The selections a target picks. */
  function Picked(t: Target, names: seq<string>): set<string> {
    set n | n in names && Picks(t, n)
  }

  function PickedHits(t: Target, results: Results, names: seq<string>): set<string> {
    set n | n in names && Picks(t, n) && Hit(results, n)
  }

  lemma AddedOne(a: set<string>, x: string, take: bool)
    requires x !in a
    ensures |a + (if take then {x} else {})| == |a| + (if take then 1 else 0)
  {
  }

  lemma LastPicked(t: Target, results: Results, names: seq<string>, last: string)
    requires last !in names
    ensures |Picked(t, names + [last])| == |Picked(t, names)| + (if Picks(t, last) then 1 else 0)
  {
    hide Picks;
    assert Picked(t, names + [last]) == Picked(t, names) + (if Picks(t, last) then {last} else {});
    AddedOne(Picked(t, names), last, Picks(t, last));
  }

  lemma LastPickedHit(t: Target, results: Results, names: seq<string>, last: string)
    requires last !in names
    ensures |PickedHits(t, results, names + [last])| ==
              |PickedHits(t, results, names)| + (if Picks(t, last) && Hit(results, last) then 1 else 0)
  {
    hide Picks, Hit;
    assert PickedHits(t, results, names + [last]) ==
           PickedHits(t, results, names) + (if Picks(t, last) && Hit(results, last) then {last} else {});
    AddedOne(PickedHits(t, results, names), last, Picks(t, last) && Hit(results, last));
  }

  lemma LastPick(t: Target, results: Results, names: seq<string>, last: string)
    ensures |Select(t, names + [last])| == |Select(t, names)| + (if Picks(t, last) then 1 else 0)
    ensures Hits(results, Select(t, names + [last])) ==
              Hits(results, Select(t, names)) + (if Picks(t, last) && Hit(results, last) then 1 else 0)
  {
    OneSelected(t, results, last);
    hide Picks, Hit, Select;
    SelectTogether(t, names, [last]);
    HitsTogether(results, Select(t, names), Select(t, [last]));
  }

  lemma OneSelected(t: Target, results: Results, name: string)
    ensures Select(t, [name]) == if Picks(t, name) then [name] else []
    ensures Hits(results, [name]) == if Hit(results, name) then 1 else 0
  {
    assert [name][..0] == [];
  }

  lemma {:induction false} SelectCounts(t: Target, results: Results, names: seq<string>)
    requires Distinct(names)
    ensures |Select(t, names)| == |Picked(t, names)|
    ensures Hits(results, Select(t, names)) == |PickedHits(t, results, names)|
  {
    if names == [] {
      assert Picked(t, names) == {} && PickedHits(t, results, names) == {};
    } else {
      var init, last := names[..|names| - 1], names[|names| - 1];
      assert names == init + [last] && last !in init;
      hide Picks, Hit, Select, Hits, Picked, PickedHits;
      SelectCounts(t, results, init);
      LastPick(t, results, init, last);
      LastPicked(t, results, init, last);
      LastPickedHit(t, results, init, last);
    }
  }

  /** `N of` means at least N of the picked selections hold; `all of` means some
      selection is picked and every picked one holds. */
  lemma QuantifierMeaning(atLeast: Option<nat>, t: Target, results: Results, names: seq<string>)
    requires Distinct(names)
    ensures match atLeast
            case Some(k) => Eval(Quant(atLeast, t), results, names) <==> |PickedHits(t, results, names)| >= k
            case None => Eval(Quant(atLeast, t), results, names) <==>
                           Picked(t, names) != {} && forall n | n in Picked(t, names) :: Hit(results, n)
  {
    SelectCounts(t, results, names);
    var all, hits := Picked(t, names), PickedHits(t, results, names);
    assert hits <= all && all == hits + (all - hits);
    if hits == all {
    } else {
      assert all - hits != {};
    }
    if forall n | n in all :: Hit(results, n) {
      assert hits == all;
    }
  }

  // --- the order of the names does not matter --------------------------------------------------------

  /** Taking one name out of a list. */
  lemma WithoutName(t: Target, results: Results, names: seq<string>, k: nat)
    requires k < |names|
    ensures |Select(t, names)| == |Select(t, names[..k] + names[k + 1..])| + |Select(t, [names[k]])|
    ensures Hits(results, Select(t, names)) ==
              Hits(results, Select(t, names[..k] + names[k + 1..])) + Hits(results, Select(t, [names[k]]))
  {
    hide Select, Hits;
    var front, x, back := names[..k], [names[k]], names[k + 1..];
    assert names == front + (x + back);
    SelectTogether(t, front, x + back);
    SelectTogether(t, x, back);
    SelectTogether(t, front, back);
    HitsTogether(results, Select(t, front), Select(t, x) + Select(t, back));
    HitsTogether(results, Select(t, x), Select(t, back));
    HitsTogether(results, Select(t, front), Select(t, back));
  }

  lemma TakenOut(a: seq<string>, b: seq<string>) returns (k: nat)
    requires a != [] && multiset(a) == multiset(b)
    ensures k < |b| && b[k] == a[0]
    ensures multiset(a[1..]) == multiset(b[..k] + b[k + 1..]) && a[..0] + a[1..] == a[1..]
  {
    HeadApart(a);
    k := Found(b, a[0]);
    WithoutOne(b, k);
  }

  lemma Found(b: seq<string>, x: string) returns (k: nat)
    requires x in multiset(b)
    ensures k < |b| && b[k] == x
  {
    k :| 0 <= k < |b| && b[k] == x;
  }

  lemma HeadApart(a: seq<string>)
    requires a != []
    ensures a[0] in multiset(a) && multiset(a[1..]) == multiset(a) - multiset{a[0]}
    ensures a[..0] + a[1..] == a[1..]
  {
    WithoutOne(a, 0);
    assert a[..0] + a[1..] == a[1..];
  }

  lemma WithoutOne(a: seq<string>, k: nat)
    requires k < |a|
    ensures multiset(a[..k] + a[k + 1..]) == multiset(a) - multiset{a[k]}
  {
    assert a == a[..k] + ([a[k]] + a[k + 1..]);
  }

  /** Two arrangements select equally many names, equally many of them hits. */
  lemma {:induction false} SelectPermutes(t: Target, results: Results, a: seq<string>, b: seq<string>)
    requires multiset(a) == multiset(b)
    ensures |Select(t, a)| == |Select(t, b)|
    ensures Hits(results, Select(t, a)) == Hits(results, Select(t, b))
  {
    hide Select, Hits;
    if a == [] {
      assert |b| == |multiset(b)| == |multiset(a)| == 0;
    } else {
      var k := TakenOut(a, b);
      SelectPermutes(t, results, a[1..], b[..k] + b[k + 1..]);
      WithoutName(t, results, a, 0);
      WithoutName(t, results, b, k);
    }
  }

  lemma {:induction false} NameOrderIsIrrelevant(e: Expr, results: Results, a: seq<string>, b: seq<string>)
    requires multiset(a) == multiset(b)
    ensures Eval(e, results, a) == Eval(e, results, b)
  {
    match e
    case Ref(_) =>
    case Not(x) =>
      NameOrderIsIrrelevant(x, results, a, b);
    case And(x, y) =>
      NameOrderIsIrrelevant(x, results, a, b);
      NameOrderIsIrrelevant(y, results, a, b);
    case Or(x, y) =>
      NameOrderIsIrrelevant(x, results, a, b);
      NameOrderIsIrrelevant(y, results, a, b);
    case Quant(atLeast, t) =>
      SelectPermutes(t, results, a, b);
  }

  // --- a list of conditions means or ------------------------------------------------------------------

  /** Every string of the list is a condition on its own. */
  predicate AllParse(items: seq<Yaml>) {
    forall i | 0 <= i < |items| && items[i].Text? :: ParseText(items[i].text).Ok?
  }

  /** Some listed condition holds. */
  predicate SomeHolds(items: seq<Yaml>, results: Results, names: seq<string>)
    requires AllParse(items)
  {
    exists i | 0 <= i < |items| && items[i].Text? :: Eval(ParseText(items[i].text).value, results, names)
  }

  lemma PartIsPhrase(s: string)
    requires ParseText(s).Ok?
    ensures Primary(Toks("(" + s + ")"), ParseText(s).value)
  {
    TextIsPhrase(s, ParseText(s).value);
    ToksInParens(s);
    Enclosed(Toks(s), ParseText(s).value);
  }

  lemma SomeHoldsSplit(items: seq<Yaml>, results: Results, names: seq<string>)
    requires items != [] && AllParse(items)
    ensures AllParse(items[..|items| - 1])
    ensures var last := items[|items| - 1];
            SomeHolds(items, results, names) <==>
              (SomeHolds(items[..|items| - 1], results, names) ||
               (last.Text? && Eval(ParseText(last.text).value, results, names)))
  {
    hide ParseText, Eval;
    var init := items[..|items| - 1];
    assert forall i | 0 <= i < |init| :: init[i] == items[i];
    if SomeHolds(init, results, names) {
      var i :| 0 <= i < |init| && init[i].Text? && Eval(ParseText(init[i].text).value, results, names);
      assert items[i].Text? && Eval(ParseText(items[i].text).value, results, names);
    }
  }

  /** The joined list is one phrase; its tree holds when some listed one does. */
  lemma {:induction false} JoinedPhrase(items: seq<Yaml>, results: Results, names: seq<string>) returns (e: Expr)
    requires AllParse(items) && Parts(items) != []
    ensures OrPhrase(Toks(JoinOr(Parts(items))), e)
    ensures Eval(e, results, names) <==> SomeHolds(items, results, names)
  {
    hide Toks, OrPhrase, AndPhrase, NotPhrase, Primary, ParseText, AllParse, SomeHolds;
    var init, last := items[..|items| - 1], items[|items| - 1];
    SomeHoldsSplit(items, results, names);
    if last.Text? {
      LastParses(items);
      var rhs := ParseText(last.text).value;
      PartIsPhrase(last.text);
      Tighter(Toks("(" + last.text + ")"), rhs);
      if Parts(init) == [] {
        e := rhs;
        NoParts(init);
        NoneHolds(init, results, names);
        assert Parts(items) == ["(" + last.text + ")"];
      } else {
        var lhs := JoinedPhrase(init, results, names);
        e := Or(lhs, rhs);
        var parts := Parts(items);
        assert parts[..|parts| - 1] == Parts(init);
        ToksOrJoin(JoinOr(Parts(init)), "(" + last.text + ")");
        JoinedOr(Toks(JoinOr(Parts(init))), Toks("(" + last.text + ")"), lhs, rhs);
      }
    } else {
      assert Parts(items) == Parts(init);
      e := JoinedPhrase(init, results, names);
    }
  }

  lemma LastParses(items: seq<Yaml>)
    requires items != [] && AllParse(items)
    ensures items[|items| - 1].Text? ==> ParseText(items[|items| - 1].text).Ok?
  {
    assert items[|items| - 1] == items[|items| - 1];
  }

  lemma NoneHolds(items: seq<Yaml>, results: Results, names: seq<string>)
    requires AllParse(items) && forall i | 0 <= i < |items| :: !items[i].Text?
    ensures !SomeHolds(items, results, names)
  {
  }

  lemma Tighter(ts: seq<Tok>, e: Expr)
    requires Primary(ts, e)
    ensures AndPhrase(ts, e) && OrPhrase(ts, e)
  {
    Wider(ts, e);
  }

  lemma {:induction false} NoParts(items: seq<Yaml>)
    ensures Parts(items) == [] <==> forall i | 0 <= i < |items| :: !items[i].Text?
  {
    if items != [] {
      var init := items[..|items| - 1];
      assert forall i | 0 <= i < |init| :: init[i] == items[i];
      NoParts(init);
    }
  }

  /** A list of conditions that each parse is accepted, and means that one of them
      holds, whatever the order of the selection names. */
  lemma ListMeansOr(items: seq<Yaml>, results: Results, names: seq<string>, order: seq<string>)
    requires AllParse(items) && multiset(order) == multiset(names)
    ensures ConditionToString(List(items)).Ok? <==> exists i :: 0 <= i < |items| && items[i].Text?
    ensures ConditionToString(List(items)).Ok? ==>
              var parsed := ParseText(ConditionToString(List(items)).value);
              parsed.Ok? && (Eval(parsed.value, results, order) <==> SomeHolds(items, results, names))
  {
    NoParts(items);
    if Parts(items) != [] {
      var e := JoinedPhrase(items, results, names);
      TextIsPhrase(JoinOr(Parts(items)), e);
      NameOrderIsIrrelevant(e, results, order, names);
    }
  }

  /** Parsing each on its own is needed: a list whose items do not parse can be
      accepted once joined. */
  lemma JoiningHidesFaults()
    ensures var items := [Text("a) or (b")];
            && ParseText("a) or (b").Err?
            && ConditionToString(List(items)).Ok?
            && ParseText(ConditionToString(List(items)).value) == Ok(Or(Ref("a"), Ref("b")))
  {
    hide Toks, ParseText, ParseSpec, ConditionToString, OrPhrase;
    var text := "a) or (b";
    FaultyToks();
    OneTextOnly(text);
    NotWholly(Toks(text), "a");
    FaultyText(text);
    TwoNames("a", "b");
    TextIsPhrase("(" + text + ")", Or(Ref("a"), Ref("b")));
  }

  lemma TwoNames(x: string, y: string)
    ensures OrPhrase(([TOpen] + [TIdent(x)] + [TClose]) + [TOr] + ([TOpen] + [TIdent(y)] + [TClose]),
                     Or(Ref(x), Ref(y)))
  {
    var a, b := [TIdent(x)], [TIdent(y)];
    Tighter(a, Ref(x));
    Tighter(b, Ref(y));
    hide OrPhrase, AndPhrase;
    Enclosed(a, Ref(x));
    Enclosed(b, Ref(y));
    Tighter([TOpen] + a + [TClose], Ref(x));
    Tighter([TOpen] + b + [TClose], Ref(y));
    JoinedOr([TOpen] + a + [TClose], [TOpen] + b + [TClose], Ref(x), Ref(y));
  }

  lemma FaultyToks()
    ensures Toks("a) or (b") == [TIdent("a"), TClose, TOr, TOpen, TIdent("b")]
    ensures Toks("(" + "a) or (b" + ")") ==
              ([TOpen] + [TIdent("a")] + [TClose]) + [TOr] + ([TOpen] + [TIdent("b")] + [TClose])
  {
    LetterToks('a');
    LetterToks('b');
    hide Toks;
    ToksInParens("a");
    ToksInParens("b");
    ToksInParens("a) or (b");
    ToksOrJoin("(" + "a" + ")", "(" + "b" + ")");
    SameText();
    var all := Toks("(" + "a) or (b" + ")");
    assert Toks("a) or (b") == all[1..|all| - 1];
    assert ['a'] == "a" && ['b'] == "b";
  }

  lemma SameText()
    ensures "(" + "a) or (b" + ")" == "(" + "a" + ")" + " or " + ("(" + "b" + ")")
  {
  }

  lemma FaultyText(s: string)
    requires ParseSpec(Toks(s)).Err?
    ensures ParseText(s).Err?
  {
  }

  lemma OneTextOnly(s: string)
    ensures ConditionToString(List([Text(s)])) == Result<string>.Ok("(" + s + ")")
  {
    assert [Text(s)][..0] == [];
    assert Parts([Text(s)]) == ["(" + s + ")"];
  }

  /** A name followed by something other than `and` or `or` is not a whole condition. */
  lemma NotWholly(toks: seq<Tok>, name: string)
    requires |toks| >= 2 && toks[0] == TIdent(name) && toks[1] == TClose
    ensures ParseSpec(toks).Err?
  {
    assert PrimarySpec(toks) == Parsed(Ref(name), toks[1..]);
    assert NotSpec(toks) == Parsed(Ref(name), toks[1..]);
    assert AndSpec(toks) == Parsed(Ref(name), toks[1..]);
    assert OrSpec(toks) == Parsed(Ref(name), toks[1..]);
  }

  lemma LetterToks(c: char)
    requires 'a' <= c <= 'z'
    ensures Toks([c]) == [TIdent([c])]
  {
    assert [c][1..] == "" && Spaced([c]) == [c];
    OneWord(c);
    assert |Lower([c])| == 1 && Lower([c])[0] == c;
  }

  // --- a compiled rule -----------------------------------------------------------------------------------

  /** A rule's selections, by name, as tests on an event. */
  datatype CompiledRule<!Event> = CompiledRule(selections: map<string, Event -> bool>, names: seq<string>,
                                               condition: Expr) {
    function Results(event: Event): Results {
      map name | name in selections :: selections[name](event)
    }

    predicate Matches(event: Event) {
      Eval(condition, Results(event), names)
    }
  }

  /** A rule whose condition is a list matches an event exactly when one of the
      rules with a single listed condition does. */
  lemma ListRuleMatchesAny<Event>(items: seq<Yaml>, rule: CompiledRule<Event>, event: Event)
    requires AllParse(items) && Parts(items) != []
    requires ParseText(JoinOr(Parts(items))) == Ok(rule.condition)
    ensures rule.Matches(event) <==>
              exists i :: 0 <= i < |items| && items[i].Text? &&
                          rule.(condition := ParseText(items[i].text).value).Matches(event)
  {
    hide ParseText, Eval, Parts, JoinOr, AllParse, SomeHolds;
    var results := rule.Results(event);
    ListMeansOr(items, results, rule.names, rule.names);
    JoinedIs(items);
    SomeMatches(items, rule, event);
  }

  lemma JoinedIs(items: seq<Yaml>)
    requires Parts(items) != []
    ensures ConditionToString(List(items)) == Result<string>.Ok(JoinOr(Parts(items)))
  {
  }

  lemma SomeMatches<Event>(items: seq<Yaml>, rule: CompiledRule<Event>, event: Event)
    requires AllParse(items)
    ensures SomeHolds(items, rule.Results(event), rule.names) <==>
              exists i :: 0 <= i < |items| && items[i].Text? &&
                          rule.(condition := ParseText(items[i].text).value).Matches(event)
  {
    hide ParseText, Eval;
    forall i | 0 <= i < |items| && items[i].Text?
      ensures rule.(condition := ParseText(items[i].text).value).Matches(event) <==>
              Eval(ParseText(items[i].text).value, rule.Results(event), rule.names)
    {
    }
  }
}
