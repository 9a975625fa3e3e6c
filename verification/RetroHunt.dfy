/** Replaying history through detection and correlation. */
module RetroHunt {
  import opened Options
  import opened Sorting
  import opened Correlation
  import opened CorrelationHistory

  datatype HuntOutcome = HuntOutcome(scanned: nat, alerts: seq<Alert>, correlationAlerts: seq<Alert>)

  // --- the stable sort by time -----------------------------------------------------------------

  function Time(e: Event): int {
    e.ts
  }

  function SortByTs(xs: seq<Event>): (r: seq<Event>)
    ensures |r| == |xs| && multiset(r) == multiset(xs)
  {
    SortBy(xs, Time)
  }

  ghost predicate Ordered(xs: seq<Event>) {
    forall i, j | 0 <= i < j < |xs| :: xs[i].ts <= xs[j].ts
  }

  lemma SortOrders(xs: seq<Event>)
    ensures Ordered(SortByTs(xs))
  {
    SortByOrders(xs, Time);
  }

  /** Events at one time are one and the same event. */
  ghost predicate TiesAreEqual(xs: seq<Event>) {
    forall x, y | x in xs && y in xs && x.ts == y.ts :: x == y
  }

  lemma SameFirst(a: seq<Event>, b: seq<Event>)
    requires Ordered(a) && Ordered(b) && multiset(a) == multiset(b) && TiesAreEqual(a) && a != []
    ensures b != [] && a[0] == b[0]
  {
    assert a[0] in multiset(b);
    assert b[0] in multiset(a);
    var i :| 0 <= i < |b| && b[i] == a[0];
    var j :| 0 <= j < |a| && a[j] == b[0];
    assert a[0].ts <= a[j].ts && b[0].ts <= b[i].ts;
    assert a[0] in a && a[j] in a;
  }

  lemma Rest(a: seq<Event>)
    requires a != []
    ensures multiset(a[1..]) == multiset(a) - multiset{a[0]} && a == [a[0]] + a[1..]
    ensures Ordered(a) ==> Ordered(a[1..])
    ensures TiesAreEqual(a) ==> TiesAreEqual(a[1..])
  {
    assert a == [a[0]] + a[1..];
  }

  /** Events whose ties are equal have one order. */
  lemma {:induction false} OneOrder(a: seq<Event>, b: seq<Event>)
    requires Ordered(a) && Ordered(b) && multiset(a) == multiset(b) && TiesAreEqual(a)
    ensures a == b
  {
    if a == [] {
      assert |b| == |multiset(b)| == |multiset(a)| == 0;
    } else {
      hide Ordered, TiesAreEqual;
      SameFirst(a, b);
      Rest(a);
      Rest(b);
      OneOrder(a[1..], b[1..]);
    }
  }

  lemma TiesPermute(a: seq<Event>, b: seq<Event>)
    requires multiset(a) == multiset(b) && TiesAreEqual(a)
    ensures TiesAreEqual(b)
  {
    forall x | x in b ensures x in a {
      assert x in multiset(b);
    }
  }

  // --- the hunt ---------------------------------------------------------------------------------------

  function Unsuppressed(alerts: seq<Alert>, suppressed: set<string>): seq<Alert> {
    if alerts == [] then []
    else Unsuppressed(alerts[..|alerts| - 1], suppressed) +
         (if alerts[|alerts| - 1].ruleId in suppressed then [] else [alerts[|alerts| - 1]])
  }

  /** The steps a list of events is replayed as. */
  function Replayed(detect: Event -> seq<Alert>, clocks: nat -> int, events: seq<Event>): seq<Step> {
    seq(|events|, i requires 0 <= i < |events| => Step(events[i], detect(events[i]), clocks(i)))
  }

  /** The engine's windows and all alerts fired over a run of steps. */
  ghost function EngineRun(rules: seq<Rule>, windows: seq<Windows>, steps: seq<Step>): (r: (seq<Windows>, seq<Alert>))
    requires |rules| == |windows|
    ensures |r.0| == |rules|
  {
    if steps == [] then (windows, [])
    else
      var (ws, fired) := EngineRun(rules, windows, steps[..|steps| - 1]);
      var last := steps[|steps| - 1];
      (Advanced(rules, ws, last), fired + FiredBy(rules, ws, last))
  }

  function BaseAlerts(steps: seq<Step>, suppressed: set<string>): seq<Alert> {
    if steps == [] then []
    else BaseAlerts(steps[..|steps| - 1], suppressed) + Unsuppressed(steps[|steps| - 1].alerts, suppressed)
  }

  ghost function HuntSpec(rules: seq<Rule>, windows: seq<Windows>, steps: seq<Step>): HuntOutcome
    requires |rules| == |windows|
  {
    HuntOutcome(|steps|, BaseAlerts(steps, Suppressed(rules)), EngineRun(rules, windows, steps).1)
  }

  method FilterSuppressed(engine: CorrelationEngine, base: seq<Alert>) returns (kept: seq<Alert>)
    ensures kept == Unsuppressed(base, Suppressed(engine.rules))
  {
    kept := [];
    for i := 0 to |base|
      invariant kept == Unsuppressed(base[..i], Suppressed(engine.rules))
    {
      assert base[..i + 1][..i] == base[..i];
      var withheld := engine.IsSuppressed(base[i].ruleId);
      if !withheld {
        kept := kept + [base[i]];
      }
    }
    assert base[..|base|] == base;
  }

  /** Sorts the events by time and feeds them through both engines. */
  method Hunt(detect: Event -> seq<Alert>, engine: CorrelationEngine, clocks: nat -> int, input: seq<Event>)
    returns (outcome: HuntOutcome)
    requires engine.Valid()
    modifies engine`windows
    ensures engine.Valid()
    ensures outcome == HuntSpec(engine.rules, old(engine.windows), Replayed(detect, clocks, SortByTs(input)))
    ensures engine.windows == EngineRun(engine.rules, old(engine.windows), Replayed(detect, clocks, SortByTs(input))).0
  {
    hide Suppressed, Advanced, FiredBy;
    var events := SortByTs(input);
    ghost var steps := Replayed(detect, clocks, events);
    ghost var start := engine.windows;
    outcome := HuntOutcome(|events|, [], []);
    for i := 0 to |events|
      invariant engine.Valid() && outcome.scanned == |events|
      invariant (engine.windows, outcome.correlationAlerts) == EngineRun(engine.rules, start, steps[..i])
      invariant outcome.alerts == BaseAlerts(steps[..i], Suppressed(engine.rules))
    {
      assert steps[..i + 1][..i] == steps[..i];
      var base := detect(events[i]);
      var fired := engine.Process(Step(events[i], base, clocks(i)));
      var kept := FilterSuppressed(engine, base);
      outcome := outcome.(correlationAlerts := outcome.correlationAlerts + fired, alerts := outcome.alerts + kept);
    }
    assert steps[..|events|] == steps;
  }

  // --- what a hunt means ---------------------------------------------------------------------------------

  /** Each rule's windows evolve on their own. */
  lemma {:induction false} RulesAreIndependent(rules: seq<Rule>, windows: seq<Windows>, steps: seq<Step>, i: nat)
    requires |rules| == |windows| && i < |rules|
    ensures EngineRun(rules, windows, steps).0[i] == After(rules[i], windows[i], steps)
  {
    if steps != [] {
      RulesAreIndependent(rules, windows, steps[..|steps| - 1], i);
    }
  }

  ghost predicate Timed(events: seq<Event>) {
    forall i | 0 <= i < |events| :: events[i].ts != 0
  }

  /** Steps alike but for a clock nobody reads. */
  ghost predicate SameButClock(a: seq<Step>, b: seq<Step>) {
    |a| == |b| && forall i | 0 <= i < |a| ::
      a[i].event == b[i].event && a[i].alerts == b[i].alerts && a[i].event.ts != 0
  }

  lemma SameRuleStep(rule: Rule, ws: Windows, a: Step, b: Step)
    requires a.event == b.event && a.alerts == b.alerts && a.event.ts != 0
    ensures RuleStep(rule, ws, a) == RuleStep(rule, ws, b)
  {
    hide Holds, Trim, Matched, GroupKey, AlertOf;
    assert Added(rule, a) == Added(rule, b);
  }

  lemma {:induction false} SameFired(rules: seq<Rule>, windows: seq<Windows>, a: Step, b: Step)
    requires |rules| == |windows| && a.event == b.event && a.alerts == b.alerts && a.event.ts != 0
    ensures FiredBy(rules, windows, a) == FiredBy(rules, windows, b)
  {
    if rules != [] {
      SameFired(rules[..|rules| - 1], windows[..|windows| - 1], a, b);
      SameRuleStep(rules[|rules| - 1], windows[|rules| - 1], a, b);
    }
  }

  lemma SameAdvance(rules: seq<Rule>, windows: seq<Windows>, a: Step, b: Step)
    requires |rules| == |windows| && a.event == b.event && a.alerts == b.alerts && a.event.ts != 0
    ensures Advanced(rules, windows, a) == Advanced(rules, windows, b)
  {
    hide RuleStep;
    forall i | 0 <= i < |rules| ensures Advanced(rules, windows, a)[i] == Advanced(rules, windows, b)[i] {
      SameRuleStep(rules[i], windows[i], a, b);
    }
  }

  lemma RunNext(rules: seq<Rule>, windows: seq<Windows>, steps: seq<Step>)
    requires |rules| == |windows| && steps != []
    ensures var before := EngineRun(rules, windows, steps[..|steps| - 1]);
            var last := steps[|steps| - 1];
            && EngineRun(rules, windows, steps) ==
                 (Advanced(rules, before.0, last), before.1 + FiredBy(rules, before.0, last))
            && BaseAlerts(steps, Suppressed(rules)) ==
                 BaseAlerts(steps[..|steps| - 1], Suppressed(rules)) + Unsuppressed(last.alerts, Suppressed(rules))
  {
    hide FiredBy, Advanced, Suppressed, Unsuppressed;
  }

  lemma {:induction false} ClockIsIrrelevant(rules: seq<Rule>, windows: seq<Windows>, a: seq<Step>, b: seq<Step>)
    requires |rules| == |windows| && SameButClock(a, b)
    ensures EngineRun(rules, windows, a) == EngineRun(rules, windows, b)
    ensures BaseAlerts(a, Suppressed(rules)) == BaseAlerts(b, Suppressed(rules))
  {
    hide FiredBy, Advanced, Suppressed, EngineRun, BaseAlerts, Unsuppressed;
    if a == [] {
      assert a == b;
    } else {
      var x, y := a[..|a| - 1], b[..|b| - 1];
      ClockIsIrrelevant(rules, windows, x, y);
      RunNext(rules, windows, a);
      RunNext(rules, windows, b);
      var ws := EngineRun(rules, windows, x).0;
      SameFired(rules, ws, a[|a| - 1], b[|b| - 1]);
      SameAdvance(rules, ws, a[|a| - 1], b[|b| - 1]);
    }
  }

  lemma SortKeepsTimed(input: seq<Event>)
    requires Timed(input)
    ensures Timed(SortByTs(input))
  {
    var sorted := SortByTs(input);
    hide SortByTs;
    forall i | 0 <= i < |sorted| ensures sorted[i].ts != 0 {
      assert sorted[i] in multiset(sorted);
      assert sorted[i] in input;
    }
  }

  lemma SortIgnoresOrder(input: seq<Event>, input': seq<Event>)
    requires multiset(input) == multiset(input') && TiesAreEqual(input)
    ensures SortByTs(input) == SortByTs(input')
  {
    hide SortByTs, Ordered, TiesAreEqual;
    SortOrders(input);
    SortOrders(input');
    TiesPermute(input, SortByTs(input));
    OneOrder(SortByTs(input), SortByTs(input'));
  }

  /** A hunt gives the same outcome, and leaves the same windows, for every order in
      which events are supplied, if events at the same time are equal. */
  lemma HuntIgnoresInputOrder(detect: Event -> seq<Alert>, rules: seq<Rule>, windows: seq<Windows>,
                              clocks: nat -> int, clocks': nat -> int, input: seq<Event>, input': seq<Event>)
    requires |rules| == |windows| && multiset(input) == multiset(input') && TiesAreEqual(input) && Timed(input)
    ensures var a, b := Replayed(detect, clocks, SortByTs(input)), Replayed(detect, clocks', SortByTs(input'));
            && HuntSpec(rules, windows, a) == HuntSpec(rules, windows, b)
            && EngineRun(rules, windows, a).0 == EngineRun(rules, windows, b).0
  {
    hide SortByTs, EngineRun, BaseAlerts, Suppressed, TiesAreEqual;
    SortIgnoresOrder(input, input');
    SortKeepsTimed(input);
    ClockIsIrrelevant(rules, windows, Replayed(detect, clocks, SortByTs(input)),
                      Replayed(detect, clocks', SortByTs(input)));
  }

  // --- the outcome is what history says ------------------------------------------------------------------

  lemma ReplayInTime(detect: Event -> seq<Alert>, clocks: nat -> int, input: seq<Event>, n: nat)
    requires Timed(input) && n <= |input|
    ensures |Replayed(detect, clocks, SortByTs(input))| == |input|
    ensures InTime(Replayed(detect, clocks, SortByTs(input))[..n])
  {
    hide SortByTs;
    SortKeepsTimed(input);
    SortOrders(input);
  }

  /** The alerts that the histories of all rules raise at the last step, in rule order. */
  ghost function HistoryNow(rules: seq<Rule>, steps: seq<Step>): seq<Alert>
    requires steps != []
  {
    if rules == [] then []
    else
      HistoryNow(rules[..|rules| - 1], steps) +
      (match HistoryAlert(rules[|rules| - 1], steps) case None => [] case Some(a) => [a])
  }

  /** The alerts that the histories raise over a whole run, step by step. */
  ghost function HistoryAlerts(rules: seq<Rule>, steps: seq<Step>): seq<Alert> {
    if steps == [] then [] else HistoryAlerts(rules, steps[..|steps| - 1]) + HistoryNow(rules, steps)
  }

  function NoWindows(n: nat): seq<Windows> {
    seq(n, _ => map[])
  }

  /** What the rules fire at a step, each on the windows its own run has left, is what
      their histories raise. */
  lemma {:induction false} FiredIsHistory(rules: seq<Rule>, windows: seq<Windows>, steps: seq<Step>)
    requires steps != [] && InTime(steps) && |rules| == |windows|
    requires forall i | 0 <= i < |rules| :: windows[i] == After(rules[i], map[], steps[..|steps| - 1])
    ensures FiredBy(rules, windows, steps[|steps| - 1]) == HistoryNow(rules, steps)
  {
    hide After, HistoryAlert, RuleStep, InTime;
    if rules != [] {
      FiredIsHistory(rules[..|rules| - 1], windows[..|rules| - 1], steps);
      WindowsRefineHistory(rules[|rules| - 1], steps);
    }
  }

  lemma {:induction false} RunIsHistory(rules: seq<Rule>, steps: seq<Step>)
    requires InTime(steps)
    ensures EngineRun(rules, NoWindows(|rules|), steps).1 == HistoryAlerts(rules, steps)
  {
    hide FiredBy, Advanced, After, HistoryNow, BaseAlerts;
    if steps != [] {
      var init := steps[..|steps| - 1];
      InTimeBefore(steps);
      RunIsHistory(rules, init);
      var windows := EngineRun(rules, NoWindows(|rules|), init).0;
      forall i | 0 <= i < |rules| ensures windows[i] == After(rules[i], map[], init) {
        RulesAreIndependent(rules, NoWindows(|rules|), init, i);
      }
      FiredIsHistory(rules, windows, steps);
    }
  }

  /** What a hunt with a fresh engine returns is what the unbounded histories say: at
      each replayed event, in rule order, exactly the alerts of those rules whose
      condition holds of their group's matches since its last firing. */
  lemma HuntRefinesHistory(detect: Event -> seq<Alert>, rules: seq<Rule>, clocks: nat -> int, input: seq<Event>)
    requires Timed(input)
    ensures var steps := Replayed(detect, clocks, SortByTs(input));
            HuntSpec(rules, NoWindows(|rules|), steps).correlationAlerts == HistoryAlerts(rules, steps)
  {
    hide EngineRun, HistoryAlerts, InTime, BaseAlerts, SortByTs, Replayed, Suppressed;
    var steps := Replayed(detect, clocks, SortByTs(input));
    ReplayInTime(detect, clocks, input, |input|);
    assert steps[..|input|] == steps;
    RunIsHistory(rules, steps);
  }

  // --- exactly when the input order does not matter ----------------------------------------------------------

  ghost predicate SameHunt(detect: Event -> seq<Alert>, rules: seq<Rule>, windows: seq<Windows>,
                           clocks: nat -> int, clocks': nat -> int, input: seq<Event>, input': seq<Event>)
    requires |rules| == |windows|
  {
    var a, b := Replayed(detect, clocks, SortByTs(input)), Replayed(detect, clocks', SortByTs(input'));
    && HuntSpec(rules, windows, a) == HuntSpec(rules, windows, b)
    && EngineRun(rules, windows, a).0 == EngineRun(rules, windows, b).0
  }

  /** Every arrangement of the events gives the same outcome and windows, whatever is
      detected, whatever the rules and windows, and whatever the clocks show. */
  ghost predicate OrderIsIrrelevant(input: seq<Event>) {
    forall input': seq<Event>, detect: Event -> seq<Alert>, rules: seq<Rule>, windows: seq<Windows>,
           clocks: nat -> int, clocks': nat -> int
      | multiset(input') == multiset(input) && |rules| == |windows| ::
      SameHunt(detect, rules, windows, clocks, clocks', input, input')
  }

  /** The base alerts of the events, one after the other. */
  function Raised(detect: Event -> seq<Alert>, xs: seq<Event>): seq<Alert> {
    if xs == [] then [] else Raised(detect, xs[..|xs| - 1]) + detect(xs[|xs| - 1])
  }

  lemma {:induction false} NoneSuppressed(alerts: seq<Alert>)
    ensures Unsuppressed(alerts, {}) == alerts
  {
    if alerts != [] {
      NoneSuppressed(alerts[..|alerts| - 1]);
      assert alerts == alerts[..|alerts| - 1] + [alerts[|alerts| - 1]];
    }
  }

  lemma {:induction false} BaseIsRaised(detect: Event -> seq<Alert>, clocks: nat -> int, xs: seq<Event>)
    ensures BaseAlerts(Replayed(detect, clocks, xs), {}) == Raised(detect, xs)
  {
    if xs != [] {
      var init, last := xs[..|xs| - 1], xs[|xs| - 1];
      BaseIsRaised(detect, clocks, init);
      assert Replayed(detect, clocks, xs)[..|xs| - 1] == Replayed(detect, clocks, init);
      NoneSuppressed(detect(last));
    }
  }

  /** Only events at time t raise anything. */
  ghost predicate RaisesAt(detect: Event -> seq<Alert>, t: int) {
    forall e | detect(e) != [] :: e.ts == t
  }

  lemma {:induction false} InsertKeepsRaised(detect: Event -> seq<Alert>, t: int, xs: seq<Event>, e: Event)
    requires RaisesAt(detect, t)
    ensures Raised(detect, InsertBy(xs, e, Time)) == Raised(detect, xs) + detect(e)
  {
    if xs == [] {
      assert [e][..0] == [];
    } else if Time(xs[|xs| - 1]) <= Time(e) {
      assert (xs + [e])[..|xs|] == xs;
    } else {
      var init, last := xs[..|xs| - 1], xs[|xs| - 1];
      InsertKeepsRaised(detect, t, init, e);
      var r := InsertBy(init, e, Time);
      assert (r + [last])[..|r|] == r;
      assert detect(e) == [] || detect(last) == [];
    }
  }

  /** The stable sort keeps the order of what one time raises. */
  lemma {:induction false} SortKeepsRaised(detect: Event -> seq<Alert>, t: int, xs: seq<Event>)
    requires RaisesAt(detect, t)
    ensures Raised(detect, SortByTs(xs)) == Raised(detect, xs)
  {
    if xs != [] {
      hide InsertBy;
      SortKeepsRaised(detect, t, xs[..|xs| - 1]);
      InsertKeepsRaised(detect, t, SortByTs(xs[..|xs| - 1]), xs[|xs| - 1]);
    }
  }

  function Mark(ruleId: string, e: Event): Alert {
    Alert(ruleId, ruleId, 0, None, [e.id], e.ts)
  }

  /** Raises `a` for x and `b` for y, and nothing else. */
  function MarkOf(x: Event, y: Event, e: Event): seq<Alert> {
    if e == x then [Mark("a", e)] else if e == y then [Mark("b", e)] else []
  }

  function Marks(x: Event, y: Event): Event -> seq<Alert> {
    e => MarkOf(x, y, e)
  }

  lemma TakeOne(input: seq<Event>, x: Event) returns (rest: seq<Event>)
    requires x in input
    ensures multiset(input) == multiset{x} + multiset(rest)
  {
    var i :| 0 <= i < |input| && input[i] == x;
    rest := input[..i] + input[i + 1..];
    assert input == input[..i] + ([x] + input[i + 1..]);
  }

  lemma TakeTwo(input: seq<Event>, x: Event, y: Event) returns (rest: seq<Event>)
    requires x in input && y in input && x != y
    ensures multiset([x, y] + rest) == multiset(input) == multiset([y, x] + rest)
  {
    var one := TakeOne(input, x);
    assert y in multiset(input) && y in multiset(one);
    rest := TakeOne(one, y);
    assert multiset([x, y] + rest) == multiset([x, y]) + multiset(rest);
    assert multiset([y, x] + rest) == multiset([y, x]) + multiset(rest);
  }

  lemma {:induction false} RaisedJoin(detect: Event -> seq<Alert>, a: seq<Event>, b: seq<Event>)
    ensures Raised(detect, a + b) == Raised(detect, a) + Raised(detect, b)
  {
    if b == [] {
      assert a + b == a;
    } else {
      RaisedJoin(detect, a, b[..|b| - 1]);
      assert (a + b)[..|a + b| - 1] == a + b[..|b| - 1];
    }
  }

  lemma RaisedOne(detect: Event -> seq<Alert>, e: Event)
    ensures Raised(detect, [e]) == detect(e)
  {
    assert [e][..0] == [] && Raised(detect, []) == [];
  }

  lemma RaisedPair(x: Event, y: Event, first: Event, second: Event, rest: seq<Event>)
    requires x != y && ((first, second) == (x, y) || (first, second) == (y, x))
    ensures var r := Raised(Marks(x, y), [first, second] + rest);
            r != [] && r[0].ruleId == if first == x then "a" else "b"
  {
    hide Raised;
    var detect := Marks(x, y);
    RaisedJoin(detect, [first], [second] + rest);
    RaisedOne(detect, first);
    assert [first] + ([second] + rest) == [first, second] + rest;
    assert detect(first) == [Mark(if first == x then "a" else "b", first)];
  }

  /** With no rules the outcome shows what the sorted events raise. */
  lemma HuntRaises(x: Event, y: Event, clocks: nat -> int, xs: seq<Event>)
    requires x.ts == y.ts
    ensures HuntSpec([], [], Replayed(Marks(x, y), clocks, SortByTs(xs))).alerts == Raised(Marks(x, y), xs)
  {
    var detect := Marks(x, y);
    assert RaisesAt(detect, x.ts);
    assert Suppressed([]) == {};
    hide SortByTs, Marks, Suppressed, RaisesAt, BaseAlerts, Replayed, EngineRun;
    BaseIsRaised(detect, clocks, SortByTs(xs));
    SortKeepsRaised(detect, x.ts, xs);
  }

  lemma SameAlerts(detect: Event -> seq<Alert>, clocks: nat -> int, input: seq<Event>, other: seq<Event>)
    requires OrderIsIrrelevant(input) && multiset(other) == multiset(input)
    ensures HuntSpec([], [], Replayed(detect, clocks, SortByTs(input))).alerts ==
              HuntSpec([], [], Replayed(detect, clocks, SortByTs(other))).alerts
  {
    hide HuntSpec, EngineRun, Replayed, SortByTs;
    var rules: seq<Rule>, windows: seq<Windows> := [], [];
    assert SameHunt(detect, rules, windows, clocks, clocks, input, other);
  }

  /** Two different events at one time: some arrangement swaps their base alerts. */
  lemma TiesShow(input: seq<Event>, x: Event, y: Event)
    requires x in input && y in input && x.ts == y.ts && x != y
    ensures !OrderIsIrrelevant(input)
  {
    if OrderIsIrrelevant(input) {
      var rest := TakeTwo(input, x, y);
      hide OrderIsIrrelevant, Marks, Raised, HuntSpec, Replayed, SortByTs;
      var clocks: nat -> int := _ => 0;
      SameAlerts(Marks(x, y), clocks, input, [x, y] + rest);
      SameAlerts(Marks(x, y), clocks, input, [y, x] + rest);
      HuntRaises(x, y, clocks, [x, y] + rest);
      HuntRaises(x, y, clocks, [y, x] + rest);
      RaisedPair(x, y, x, y, rest);
      RaisedPair(x, y, y, x, rest);
    }
  }

  /** The order in which events with non-zero times are supplied is irrelevant exactly
      when any two of them at one time are equal. */
  lemma OrderIrrelevantExactly(input: seq<Event>)
    requires Timed(input)
    ensures OrderIsIrrelevant(input) <==> TiesAreEqual(input)
  {
    if TiesAreEqual(input) {
      forall input': seq<Event>, detect: Event -> seq<Alert>, rules: seq<Rule>, windows: seq<Windows>,
             clocks: nat -> int, clocks': nat -> int
        | multiset(input') == multiset(input) && |rules| == |windows|
        ensures SameHunt(detect, rules, windows, clocks, clocks', input, input')
      {
        hide HuntSpec, EngineRun, Replayed, SortByTs, TiesAreEqual, Timed;
        HuntIgnoresInputOrder(detect, rules, windows, clocks, clocks', input, input');
      }
    } else {
      var x, y :| x in input && y in input && x.ts == y.ts && x != y;
      TiesShow(input, x, y);
    }
  }

  // --- which base alerts are withheld -----------------------------------------------------------------

  /** All alerts the detection raised, step by step. */
  function AllAlerts(steps: seq<Step>): seq<Alert> {
    if steps == [] then [] else AllAlerts(steps[..|steps| - 1]) + steps[|steps| - 1].alerts
  }

  /** Some rule refers to the base rule and does not ask for its alerts. */
  ghost predicate Withheld(rules: seq<Rule>, baseRule: string) {
    exists i :: 0 <= i < |rules| && !rules[i].generate && baseRule in rules[i].rules
  }

  lemma CountLast(init: seq<Alert>, last: Alert, a: Alert)
    ensures multiset(init + [last])[a] == multiset(init)[a] + if last == a then 1 else 0
  {
  }

  lemma {:induction false} UnsuppressedKeeps(alerts: seq<Alert>, suppressed: set<string>, a: Alert)
    ensures multiset(Unsuppressed(alerts, suppressed))[a] ==
              if a.ruleId in suppressed then 0 else multiset(alerts)[a]
  {
    if alerts != [] {
      var init, last := alerts[..|alerts| - 1], alerts[|alerts| - 1];
      UnsuppressedKeeps(init, suppressed, a);
      CountLast(init, last, a);
      CountLast(Unsuppressed(init, suppressed), last, a);
      assert alerts == init + [last];
      assert Unsuppressed(alerts, suppressed) ==
             Unsuppressed(init, suppressed) + if last.ruleId in suppressed then [] else [last];
    }
  }

  lemma {:induction false} UnsuppressedAll(alerts: seq<Alert>, suppressed: set<string>)
    requires forall x | x in alerts :: x.ruleId !in suppressed
    ensures Unsuppressed(alerts, suppressed) == alerts
  {
    if alerts != [] {
      UnsuppressedAll(alerts[..|alerts| - 1], suppressed);
      assert alerts == alerts[..|alerts| - 1] + [alerts[|alerts| - 1]];
    }
  }

  lemma {:induction false} BaseKeeps(steps: seq<Step>, suppressed: set<string>, a: Alert)
    ensures multiset(BaseAlerts(steps, suppressed))[a] ==
              if a.ruleId in suppressed then 0 else multiset(AllAlerts(steps))[a]
  {
    if steps != [] {
      BaseKeeps(steps[..|steps| - 1], suppressed, a);
      UnsuppressedKeeps(steps[|steps| - 1].alerts, suppressed, a);
    }
  }

  lemma {:induction false} BaseAll(steps: seq<Step>, suppressed: set<string>)
    requires forall x | x in AllAlerts(steps) :: x.ruleId !in suppressed
    ensures BaseAlerts(steps, suppressed) == AllAlerts(steps)
  {
    if steps != [] {
      BaseAll(steps[..|steps| - 1], suppressed);
      UnsuppressedAll(steps[|steps| - 1].alerts, suppressed);
    }
  }

  /** A hunt returns each base alert as often as it was raised, unless some rule without
      `generate` refers to its rule: then never. If none is withheld, it returns them in
      the order they were raised. */
  lemma HuntWithholdsExactly(rules: seq<Rule>, windows: seq<Windows>, steps: seq<Step>, a: Alert)
    requires |rules| == |windows|
    ensures multiset(HuntSpec(rules, windows, steps).alerts)[a] ==
              if Withheld(rules, a.ruleId) then 0 else multiset(AllAlerts(steps))[a]
    ensures (forall x | x in AllAlerts(steps) :: !Withheld(rules, x.ruleId)) ==>
              HuntSpec(rules, windows, steps).alerts == AllAlerts(steps)
  {
    hide EngineRun, BaseAlerts, AllAlerts;
    forall r ensures r in Suppressed(rules) <==> Withheld(rules, r) {
    }
    BaseKeeps(steps, Suppressed(rules), a);
    if forall x | x in AllAlerts(steps) :: !Withheld(rules, x.ruleId) {
      BaseAll(steps, Suppressed(rules));
    }
  }

  /** Every event supplied is scanned once. */
  lemma HuntScansAll(detect: Event -> seq<Alert>, rules: seq<Rule>, windows: seq<Windows>, clocks: nat -> int,
                     input: seq<Event>)
    requires |rules| == |windows|
    ensures HuntSpec(rules, windows, Replayed(detect, clocks, SortByTs(input))).scanned == |input|
  {
    hide EngineRun, BaseAlerts;
  }

  // --- ties and an ordered rule ---------------------------------------------------------------------------------

  /** An ordered rule: `a` then `b`. */
  function TieRule(): Rule {
    Rule("c", "c", 0, None, TemporalOrdered, ["a", "b"], [], 10, CountCondition(None, None, None, None, None, None),
         false)
  }

  function TieEntry(ruleId: string, e: Event): Entry {
    Entry(e.ts, ruleId, e.id, None)
  }

  /** An event with its one mark. */
  function Marked(ruleId: string, e: Event, clock: int): Step {
    Step(e, [Mark(ruleId, e)], clock)
  }

  lemma MarkedStep(ruleId: string, e: Event, clock: int)
    requires (ruleId == "a" || ruleId == "b") && e.ts != 0
    ensures var step := Marked(ruleId, e, clock);
            && Matched(TieRule(), step.alerts) == step.alerts && Added(TieRule(), step) == [TieEntry(ruleId, e)]
            && Now(step) == e.ts && GroupKey(TieRule(), step.event) == ""
  {
    var step := Marked(ruleId, e, clock);
    assert step.alerts[..0] == [];
    assert Matched(TieRule(), step.alerts) == step.alerts;
  }

  lemma TwoPlaces(x: string, y: string, w: seq<Entry>, at: seq<nat>)
    requires EmbedsAt([x, y], w, at)
    ensures |w| >= 2 && exists i, j :: 0 <= i < j < |w| && w[i].ruleId == x && w[j].ruleId == y
  {
    assert at[0] < at[1];
    assert w[at[0]].ruleId == [x, y][0] && w[at[1]].ruleId == [x, y][1];
  }

  lemma TieEmbeds(w: seq<Entry>)
    ensures |w| == 1 ==> !Embeds(["a", "b"], w)
    ensures |w| == 2 ==> (Embeds(["a", "b"], w) <==> w[0].ruleId == "a" && w[1].ruleId == "b")
  {
    if at :| EmbedsAt(["a", "b"], w, at) {
      TwoPlaces("a", "b", w, at);
    }
    if |w| == 2 && w[0].ruleId == "a" && w[1].ruleId == "b" {
      assert EmbedsAt(["a", "b"], w, [0, 1]);
    }
  }

  lemma Untrimmed(w: seq<Entry>, cutoff: int)
    requires w != [] ==> w[0].ts >= cutoff
    ensures Trim(w, cutoff) == w
  {
  }

  /** One marked step on a window of the same time. */
  lemma TieLooks(ws: Windows, ruleId: string, e: Event, clock: int, w: seq<Entry>)
    requires (ruleId == "a" || ruleId == "b") && e.ts != 0 && Window(ws, "") == w && (w == [] || w[0].ts == e.ts)
    ensures var holds := Embeds(["a", "b"], w + [TieEntry(ruleId, e)]);
            var r := RuleStep(TieRule(), ws, Marked(ruleId, e, clock));
            && Window(r.0, "") == (if holds then [] else w + [TieEntry(ruleId, e)]) && (r.1.Some? <==> holds)
  {
    hide Embeds, Matched, Added, GroupKey, AlertOf, RuleStep, Window;
    MarkedStep(ruleId, e, clock);
    StepAtGroup(TieRule(), ws, Marked(ruleId, e, clock), "");
    Untrimmed(w + [TieEntry(ruleId, e)], e.ts - 10);
  }

  /** Two marked events at one time, the first one first. */
  lemma TieRun(id1: string, e1: Event, id2: string, e2: Event, c1: int, c2: int)
    requires (id1, id2) == ("a", "b") || (id1, id2) == ("b", "a")
    requires e1.ts == e2.ts != 0
    ensures LastAlert(TieRule(), map[], [Marked(id1, e1, c1), Marked(id2, e2, c2)]).Some? <==> id1 == "a"
  {
    hide RuleStep, Embeds, Marked, Window;
    var first, second := Marked(id1, e1, c1), Marked(id2, e2, c2);
    var rule, w := TieRule(), [TieEntry(id1, e1)];
    assert [] + w == w && [first, second][..1] == [first] && [first][..0] == [];
    NoWindow();
    TieEmbeds(w);
    TieLooks(map[], id1, e1, c1, []);
    assert After(rule, map[], [first]) == RuleStep(rule, map[], first).0;
    TieEmbeds(w + [TieEntry(id2, e2)]);
    TieLooks(After(rule, map[], [first]), id2, e2, c2, w);
  }

  lemma NoWindow()
    ensures Window(map[], "") == []
  {
  }

  lemma TieReplay(detect: Event -> seq<Alert>, clocks: nat -> int, x: Event, y: Event)
    requires x.ts == y.ts
    ensures Replayed(detect, clocks, SortByTs([x, y])) == [Step(x, detect(x), clocks(0)), Step(y, detect(y), clocks(1))]
  {
    assert [x, y][..1] == [x] && [x][..0] == [];
    assert SortByTs([x]) == [x];
    assert SortByTs([x, y]) == [x, y];
  }

  /** Any two different events at one time can make a correlation fire in one order and
      not in the other. */
  lemma TiesMatter(x: Event, y: Event, clocks: nat -> int)
    requires x.ts == y.ts != 0 && x != y
    ensures LastAlert(TieRule(), map[], Replayed(Marks(x, y), clocks, SortByTs([x, y]))).Some?
    ensures LastAlert(TieRule(), map[], Replayed(Marks(x, y), clocks, SortByTs([y, x]))).None?
  {
    hide SortByTs, Replayed, LastAlert, TieRule;
    TieReplay(Marks(x, y), clocks, x, y);
    TieReplay(Marks(x, y), clocks, y, x);
    TieRun("a", x, "b", y, clocks(0), clocks(1));
    TieRun("b", y, "a", x, clocks(0), clocks(1));
  }
}
