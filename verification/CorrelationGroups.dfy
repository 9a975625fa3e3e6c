/** Grouping and counting in the events' own terms: which events share a group, that
    other groups do not matter, and when a count fires. */
module CorrelationGroups {
  import opened Options
  import opened Correlation
  import opened CorrelationHistory

  // --- the values of a field ------------------------------------------------------------------------

  function ValueBag(event: Event, field: string): multiset<string> {
    if field in event.fields then multiset(event.fields[field]) else multiset{}
  }

  /** The events have the same values for every group-by field, in whatever order. */
  ghost predicate SameGroup(rule: Rule, a: Event, b: Event) {
    forall i | 0 <= i < |rule.groupBy| :: ValueBag(a, rule.groupBy[i]) == ValueBag(b, rule.groupBy[i])
  }

  const COMMA: char := ','
  const UNIT: char := '\U{1f}'

  /** The group-by values are not empty and contain neither separator. */
  ghost predicate Separable(rule: Rule, event: Event) {
    forall i | 0 <= i < |rule.groupBy| :: CleanValues(event, rule.groupBy[i])
  }

  ghost predicate CleanValues(event: Event, field: string) {
    forall v | v in ValueBag(event, field) :: v != "" && COMMA !in v && UNIT !in v
  }

  // --- the order of strings ---------------------------------------------------------------------------

  lemma {:induction false} LexTotal(a: string, b: string)
    ensures LexLe(a, b) || LexLe(b, a)
    ensures LexLe(a, b) && LexLe(b, a) ==> a == b
  {
    if a != "" && b != "" {
      LexTotal(a[1..], b[1..]);
      assert a == [a[0]] + a[1..] && b == [b[0]] + b[1..];
    }
  }

  lemma {:induction false} LexThrough(a: string, b: string, c: string)
    requires LexLe(a, b) && LexLe(b, c)
    ensures LexLe(a, c)
  {
    if a != "" && a[0] == b[0] == c[0] {
      LexThrough(a[1..], b[1..], c[1..]);
    }
  }

  ghost predicate Sorted(xs: seq<string>) {
    forall i, j | 0 <= i < j < |xs| :: LexLe(xs[i], xs[j])
  }

  lemma {:induction false} InsertKeeps(xs: seq<string>, x: string)
    requires Sorted(xs)
    ensures Sorted(InsertString(xs, x)) && multiset(InsertString(xs, x)) == multiset(xs) + multiset{x}
  {
    if xs == [] {
    } else if LexLe(x, xs[0]) {
      forall j | 0 <= j < |xs| ensures LexLe(x, xs[j]) {
        if j > 0 {
          LexThrough(x, xs[0], xs[j]);
        }
      }
    } else {
      LexTotal(x, xs[0]);
      InsertKeeps(xs[1..], x);
      var rest := InsertString(xs[1..], x);
      assert xs == [xs[0]] + xs[1..];
      forall j | 0 <= j < |rest| ensures LexLe(xs[0], rest[j]) {
        assert rest[j] in multiset(rest);
        assert rest[j] == x || rest[j] in xs[1..];
      }
    }
  }

  lemma {:induction false} SortKeeps(xs: seq<string>)
    ensures Sorted(SortStrings(xs)) && multiset(SortStrings(xs)) == multiset(xs)
  {
    if xs != [] {
      SortKeeps(xs[1..]);
      InsertKeeps(SortStrings(xs[1..]), xs[0]);
      assert xs == [xs[0]] + xs[1..];
    }
  }

  lemma SameFirst(a: seq<string>, b: seq<string>)
    requires Sorted(a) && Sorted(b) && multiset(a) == multiset(b) && a != []
    ensures b != [] && a[0] == b[0]
  {
    assert a[0] in multiset(b);
    assert b[0] in multiset(a);
    var i :| 0 <= i < |b| && b[i] == a[0];
    var j :| 0 <= j < |a| && a[j] == b[0];
    LexTotal(a[0], b[0]);
    LexTotal(a[0], a[0]);
  }

  lemma Tail(a: seq<string>)
    requires a != []
    ensures multiset(a[1..]) == multiset(a) - multiset{a[0]} && a == [a[0]] + a[1..]
    ensures Sorted(a) ==> Sorted(a[1..])
  {
    assert a == [a[0]] + a[1..];
  }

  lemma {:induction false} OneSorting(a: seq<string>, b: seq<string>)
    requires Sorted(a) && Sorted(b) && multiset(a) == multiset(b)
    ensures a == b
  {
    hide Sorted;
    if a == [] {
      assert |b| == |multiset(b)| == |multiset(a)| == 0;
    } else {
      SameFirst(a, b);
      Tail(a);
      Tail(b);
      OneSorting(a[1..], b[1..]);
    }
  }

  lemma SortedAlike(a: seq<string>, b: seq<string>)
    ensures SortStrings(a) == SortStrings(b) <==> multiset(a) == multiset(b)
  {
    SortKeeps(a);
    SortKeeps(b);
    if multiset(a) == multiset(b) {
      OneSorting(SortStrings(a), SortStrings(b));
    }
  }

  // --- joining and taking apart ---------------------------------------------------------------------------

  lemma JoinNext(parts: seq<string>, sep: string)
    requires |parts| >= 2
    ensures Join(parts, sep) == parts[0] + (sep + Join(parts[1..], sep))
  {
    assert parts[0] + sep + Join(parts[1..], sep) == parts[0] + (sep + Join(parts[1..], sep));
  }

  lemma SepAfter(x: string, rest: string, sep: char)
    requires sep !in x
    ensures (x + ([sep] + rest))[|x|] == sep
    ensures forall i | 0 <= i < |x| :: (x + ([sep] + rest))[i] != sep
  {
    forall i | 0 <= i < |x| ensures (x + ([sep] + rest))[i] != sep {
      assert x[i] in x;
    }
  }

  /** The first separator ends the first part. */
  lemma SameHead(x: string, rest: string, y: string, rest': string, sep: char)
    requires sep !in x && sep !in y && x + ([sep] + rest) == y + ([sep] + rest')
    ensures x == y && rest == rest'
  {
    var all := x + ([sep] + rest);
    SepAfter(x, rest, sep);
    SepAfter(y, rest', sep);
    assert |x| == |y|;
    assert all[..|x|] == x && all[..|y|] == y && all[|x| + 1..] == rest && all[|y| + 1..] == rest';
  }

  lemma JoinHasSep(parts: seq<string>, sep: char)
    requires |parts| >= 2
    ensures sep in Join(parts, [sep])
  {
    JoinNext(parts, [sep]);
    assert Join(parts, [sep])[|parts[0]|] == sep;
  }

  /** Parts without the separator are determined by their joint text and number. */
  lemma {:induction false} JoinedSame(a: seq<string>, b: seq<string>, sep: char)
    requires |a| == |b| && Join(a, [sep]) == Join(b, [sep])
    requires forall i | 0 <= i < |a| :: sep !in a[i] && sep !in b[i]
    ensures a == b
  {
    if |a| >= 2 {
      JoinNext(a, [sep]);
      JoinNext(b, [sep]);
      SameHead(a[0], Join(a[1..], [sep]), b[0], Join(b[1..], [sep]), sep);
      JoinedSame(a[1..], b[1..], sep);
      assert a == [a[0]] + a[1..] && b == [b[0]] + b[1..];
    }
  }

  /** Parts that are not empty, also by their joint text alone. */
  lemma {:induction false} JoinedSameAny(a: seq<string>, b: seq<string>, sep: char)
    requires Join(a, [sep]) == Join(b, [sep])
    requires forall i | 0 <= i < |a| :: a[i] != "" && sep !in a[i]
    requires forall i | 0 <= i < |b| :: b[i] != "" && sep !in b[i]
    ensures a == b
  {
    if |a| >= 2 {
      JoinHasSep(a, sep);
      JoinNext(a, [sep]);
    }
    if |b| >= 2 {
      JoinHasSep(b, sep);
      JoinNext(b, [sep]);
    }
    if |a| >= 2 && |b| >= 2 {
      SameHead(a[0], Join(a[1..], [sep]), b[0], Join(b[1..], [sep]), sep);
      JoinedSameAny(a[1..], b[1..], sep);
      assert a == [a[0]] + a[1..] && b == [b[0]] + b[1..];
    }
  }

  lemma {:induction false} JoinWithout(parts: seq<string>, sep: string, c: char)
    requires c !in sep && forall i | 0 <= i < |parts| :: c !in parts[i]
    ensures c !in Join(parts, sep)
  {
    if |parts| >= 2 {
      JoinNext(parts, sep);
      JoinWithout(parts[1..], sep, c);
    }
  }

  // --- the key of a group ------------------------------------------------------------------------------------

  /** One field's part of the key. */
  function KeyPart(event: Event, field: string): string {
    Join(SortStrings(Resolve(event, field)), ",")
  }

  function KeyParts(rule: Rule, event: Event): seq<string> {
    seq(|rule.groupBy|, i requires 0 <= i < |rule.groupBy| => KeyPart(event, rule.groupBy[i]))
  }

  lemma KeyIsJoined(rule: Rule, event: Event)
    ensures GroupKey(rule, event) == Join(KeyParts(rule, event), [UNIT])
  {
    var parts := seq(|rule.groupBy|, i requires 0 <= i < |rule.groupBy| =>
                       Join(SortStrings(Resolve(event, rule.groupBy[i])), ","));
    assert parts == KeyParts(rule, event);
  }

  lemma BagOf(event: Event, field: string)
    ensures multiset(Resolve(event, field)) == ValueBag(event, field)
  {
  }

  /** Events with the same values, in whatever order, share a group. */
  lemma SameValuesSameKey(rule: Rule, a: Event, b: Event)
    requires SameGroup(rule, a, b)
    ensures GroupKey(rule, a) == GroupKey(rule, b)
  {
    hide Resolve, SortStrings, Join, ValueBag, GroupKey;
    KeyIsJoined(rule, a);
    KeyIsJoined(rule, b);
    forall i | 0 <= i < |rule.groupBy| ensures KeyPart(a, rule.groupBy[i]) == KeyPart(b, rule.groupBy[i]) {
      BagOf(a, rule.groupBy[i]);
      BagOf(b, rule.groupBy[i]);
      SortedAlike(Resolve(a, rule.groupBy[i]), Resolve(b, rule.groupBy[i]));
    }
    assert KeyParts(rule, a) == KeyParts(rule, b);
  }

  lemma PartWithout(event: Event, field: string)
    requires forall v | v in ValueBag(event, field) :: UNIT !in v
    ensures UNIT !in KeyPart(event, field)
  {
    BagOf(event, field);
    SortKeeps(Resolve(event, field));
    var parts := SortStrings(Resolve(event, field));
    forall i | 0 <= i < |parts| ensures UNIT !in parts[i] {
      assert parts[i] in multiset(parts);
    }
    JoinWithout(parts, ",", UNIT);
  }

  lemma SamePartSameBag(a: Event, b: Event, field: string)
    requires forall v | v in ValueBag(a, field) || v in ValueBag(b, field) :: v != "" && COMMA !in v
    requires KeyPart(a, field) == KeyPart(b, field)
    ensures ValueBag(a, field) == ValueBag(b, field)
  {
    hide Resolve, Join, SortStrings;
    BagOf(a, field);
    BagOf(b, field);
    var x, y := SortStrings(Resolve(a, field)), SortStrings(Resolve(b, field));
    SortKeeps(Resolve(a, field));
    SortKeeps(Resolve(b, field));
    forall i | 0 <= i < |x| ensures x[i] != "" && COMMA !in x[i] {
      assert x[i] in multiset(x);
    }
    forall i | 0 <= i < |y| ensures y[i] != "" && COMMA !in y[i] {
      assert y[i] in multiset(y);
    }
    assert "," == [COMMA];
    JoinedSameAny(x, y, COMMA);
  }

  /** With values that are not empty and contain no separator, two events share a
      group exactly when they have the same values for every group-by field. */
  lemma GroupKeyExactly(rule: Rule, a: Event, b: Event)
    requires Separable(rule, a) && Separable(rule, b)
    ensures GroupKey(rule, a) == GroupKey(rule, b) <==> SameGroup(rule, a, b)
  {
    hide Resolve, Join, SortStrings, GroupKey, KeyPart, ValueBag;
    if SameGroup(rule, a, b) {
      SameValuesSameKey(rule, a, b);
    }
    if GroupKey(rule, a) == GroupKey(rule, b) {
      KeyIsJoined(rule, a);
      KeyIsJoined(rule, b);
      var x, y := KeyParts(rule, a), KeyParts(rule, b);
      forall i | 0 <= i < |x| ensures UNIT !in x[i] && UNIT !in y[i] {
        assert CleanValues(a, rule.groupBy[i]) && CleanValues(b, rule.groupBy[i]);
        PartWithout(a, rule.groupBy[i]);
        PartWithout(b, rule.groupBy[i]);
      }
      JoinedSame(x, y, UNIT);
      forall i | 0 <= i < |rule.groupBy| ensures ValueBag(a, rule.groupBy[i]) == ValueBag(b, rule.groupBy[i]) {
        var f := rule.groupBy[i];
        assert x[i] == y[i] && x[i] == KeyPart(a, f) && y[i] == KeyPart(b, f);
        assert CleanValues(a, f) && CleanValues(b, f);
        SamePartSameBag(a, b, f);
      }
    }
  }

  lemma OneValuePart(event: Event, field: string)
    requires field in event.fields && |event.fields[field]| == 1
    ensures KeyPart(event, field) == event.fields[field][0]
    ensures forall v | v in ValueBag(event, field) :: v == event.fields[field][0]
  {
    var v := event.fields[field][0];
    assert event.fields[field] == [v] && [v][1..] == [];
    assert SortStrings([]) == [] && SortStrings([v]) == [v];
  }

  /** With one value per field, which may be empty or contain a comma: two events share a
      group exactly when the values are the same. */
  lemma OneValueEach(rule: Rule, a: Event, b: Event)
    requires forall f | f in rule.groupBy :: f in a.fields && |a.fields[f]| == 1 && UNIT !in a.fields[f][0]
    requires forall f | f in rule.groupBy :: f in b.fields && |b.fields[f]| == 1 && UNIT !in b.fields[f][0]
    ensures GroupKey(rule, a) == GroupKey(rule, b) <==>
              forall f | f in rule.groupBy :: a.fields[f][0] == b.fields[f][0]
  {
    hide Resolve, Join, SortStrings, GroupKey, KeyPart, ValueBag;
    KeyIsJoined(rule, a);
    KeyIsJoined(rule, b);
    var x, y := KeyParts(rule, a), KeyParts(rule, b);
    forall i | 0 <= i < |x|
      ensures rule.groupBy[i] in rule.groupBy && x[i] == a.fields[rule.groupBy[i]][0]
      ensures y[i] == b.fields[rule.groupBy[i]][0]
    {
      assert rule.groupBy[i] in rule.groupBy;
      OneValuePart(a, rule.groupBy[i]);
      OneValuePart(b, rule.groupBy[i]);
    }
    if forall f | f in rule.groupBy :: a.fields[f][0] == b.fields[f][0] {
      assert x == y;
    }
    if GroupKey(rule, a) == GroupKey(rule, b) {
      JoinedSame(x, y, UNIT);
      forall f | f in rule.groupBy ensures a.fields[f][0] == b.fields[f][0] {
        var i :| 0 <= i < |rule.groupBy| && rule.groupBy[i] == f;
        assert x[i] == y[i];
      }
    }
  }

  /** The separators matter: one value with a comma shares a group with two values. */
  lemma SeparatorsCollide(rule: Rule, field: string, id: string, ts: int)
    requires rule.groupBy == [field]
    ensures var a, b := Event(id, ts, map[field := ["x,y"]]), Event(id, ts, map[field := ["x", "y"]]);
            !SameGroup(rule, a, b) && GroupKey(rule, a) == GroupKey(rule, b)
  {
    var a, b := Event(id, ts, map[field := ["x,y"]]), Event(id, ts, map[field := ["x", "y"]]);
    KeyIsJoined(rule, a);
    KeyIsJoined(rule, b);
    OneValuePart(a, field);
    assert ["x", "y"][1..] == ["y"] && ["y"][1..] == [];
    assert SortStrings([]) == [] && SortStrings(["y"]) == ["y"];
    assert "x"[0] < "y"[0] && LexLe("x", "y");
    assert SortStrings(["x", "y"]) == ["x", "y"];
    assert Join(["y"], ",") == "y" && Join(["x", "y"], ",") == "x" + "," + "y";
    assert KeyPart(a, field) == KeyPart(b, field);
    assert KeyParts(rule, a) == KeyParts(rule, b);
    assert "x,y" in ValueBag(a, rule.groupBy[0]) && "x,y" !in ValueBag(b, rule.groupBy[0]);
  }

  // --- other groups do not matter ----------------------------------------------------------------------------

  /** The steps whose event has the same group-by values. */
  ghost function OnlyLike(rule: Rule, event: Event, steps: seq<Step>): seq<Step> {
    if steps == [] then []
    else
      OnlyLike(rule, event, steps[..|steps| - 1]) +
      (if SameGroup(rule, event, steps[|steps| - 1].event) then [steps[|steps| - 1]] else [])
  }

  /** The alerts fired at those steps. */
  ghost function AlertsLike(rule: Rule, event: Event, ws: Windows, steps: seq<Step>): seq<Alert> {
    if steps == [] then []
    else
      AlertsLike(rule, event, ws, steps[..|steps| - 1]) +
      (if !SameGroup(rule, event, steps[|steps| - 1].event) then []
       else match LastAlert(rule, ws, steps) case None => [] case Some(a) => [a])
  }

  ghost predicate AllSeparable(rule: Rule, steps: seq<Step>) {
    forall i | 0 <= i < |steps| :: Separable(rule, steps[i].event)
  }

  lemma {:induction false} LikeIsGroup(rule: Rule, event: Event, ws: Windows, steps: seq<Step>)
    requires Separable(rule, event) && AllSeparable(rule, steps)
    ensures OnlyLike(rule, event, steps) == OnlyGroup(rule, GroupKey(rule, event), steps)
    ensures AlertsLike(rule, event, ws, steps) == GroupAlerts(rule, GroupKey(rule, event), ws, steps)
  {
    hide SameGroup, Separable, GroupKey, LastAlert;
    if steps != [] {
      LikeIsGroup(rule, event, ws, steps[..|steps| - 1]);
      assert Separable(rule, steps[|steps| - 1].event);
      GroupKeyExactly(rule, event, steps[|steps| - 1].event);
    }
  }

  /** Events that differ in some group-by field do not change a group's alerts. */
  lemma ValuesIsolate(rule: Rule, event: Event, ws: Windows, steps: seq<Step>)
    requires Separable(rule, event) && AllSeparable(rule, steps)
    ensures AlertsLike(rule, event, ws, steps) == Alerts(rule, ws, OnlyLike(rule, event, steps))
  {
    hide *;
    LikeIsGroup(rule, event, ws, steps);
    GroupsAreIsolated(rule, GroupKey(rule, event), ws, steps);
  }

  // --- until a rule fires ---------------------------------------------------------------------------------------

  /** All entries of a run's steps. */
  function AllAdded(rule: Rule, steps: seq<Step>): seq<Entry> {
    if steps == [] then [] else AllAdded(rule, steps[..|steps| - 1]) + Added(rule, steps[|steps| - 1])
  }

  /** The steps of a burst: each a match, with the same group-by values, in time order and
      all within the time span. */
  ghost predicate Burst(rule: Rule, steps: seq<Step>) {
    && InTime(steps)
    && (forall i | 0 <= i < |steps| ::
          Matched(rule, steps[i].alerts) != [] && SameGroup(rule, steps[0].event, steps[i].event) &&
          Now(steps[|steps| - 1]) - Now(steps[i]) <= rule.timespan)
  }

  ghost predicate NotYetFired(rule: Rule, steps: seq<Step>) {
    forall k | 0 < k < |steps| :: LastAlert(rule, map[], steps[..k]).None?
  }

  lemma BurstBefore(rule: Rule, steps: seq<Step>)
    requires Burst(rule, steps) && NotYetFired(rule, steps) && |steps| >= 2
    ensures var init := steps[..|steps| - 1];
            Burst(rule, init) && NotYetFired(rule, init) && init[0] == steps[0] && LastAlert(rule, map[], init).None?
  {
    hide LastAlert, SameGroup, Matched;
    var init := steps[..|steps| - 1];
    forall k | 0 < k < |init| ensures LastAlert(rule, map[], init[..k]).None? {
      assert init[..k] == steps[..k];
    }
  }

  lemma {:induction false} AddedInSpan(rule: Rule, steps: seq<Step>, cutoff: int)
    requires forall i | 0 <= i < |steps| :: Now(steps[i]) >= cutoff
    ensures forall i | 0 <= i < |AllAdded(rule, steps)| :: AllAdded(rule, steps)[i].ts >= cutoff
  {
    if steps != [] {
      AddedInSpan(rule, steps[..|steps| - 1], cutoff);
      AddedNow(rule, steps[|steps| - 1]);
      hide Added;
    }
  }

  lemma NothingTooOld(w: seq<Entry>, cutoff: int)
    requires forall i | 0 <= i < |w| :: w[i].ts >= cutoff
    ensures Trim(w, cutoff) == w
  {
  }

  /** Until it fires, the rule looks at all matches of the burst. */
  lemma {:induction false} LooksAtAll(rule: Rule, steps: seq<Step>)
    requires Burst(rule, steps) && NotYetFired(rule, steps) && steps != []
    ensures var g, w := GroupKey(rule, steps[0].event), AllAdded(rule, steps);
            && (LastAlert(rule, map[], steps).Some? <==> Holds(rule, w))
            && (Holds(rule, w) ==> LastAlert(rule, map[], steps).value == AlertOf(rule, w, Now(steps[|steps| - 1])))
            && Window(After(rule, map[], steps), g) == if Holds(rule, w) then [] else w
  {
    var init, last := steps[..|steps| - 1], steps[|steps| - 1];
    var g := GroupKey(rule, steps[0].event);
    var ws := After(rule, map[], init);
    assert SameGroup(rule, steps[0].event, last.event);
    SameValuesSameKey(rule, steps[0].event, last.event);
    AddedInSpan(rule, steps, Now(last) - rule.timespan);
    hide GroupKey, Holds, AlertOf, Added, SameGroup, Burst, NotYetFired;
    NothingTooOld(AllAdded(rule, steps), Now(last) - rule.timespan);
    if |steps| >= 2 {
      BurstBefore(rule, steps);
      LooksAtAll(rule, init);
    } else {
      assert init == [];
      NothingSeen(rule, g);
    }
    assert Window(ws, g) == AllAdded(rule, init);
    StepAtGroup(rule, ws, last, g);
    BurstMatches(rule, steps);
    assert Concerns(rule, g, last);
    AfterStep(rule, map[], steps);
  }

  lemma BurstMatches(rule: Rule, steps: seq<Step>)
    requires Burst(rule, steps) && steps != []
    ensures Matched(rule, steps[|steps| - 1].alerts) != []
  {
  }

  // --- counting ----------------------------------------------------------------------------------------------------

  function AtLeast(n: nat): CountCondition {
    CountCondition(None, None, Some(n), None, None, None)
  }

  /** Each step of the burst matches once. */
  ghost predicate OnceEach(rule: Rule, steps: seq<Step>) {
    forall i | 0 <= i < |steps| :: |Matched(rule, steps[i].alerts)| == 1
  }

  lemma {:induction false} OneEntryEach(rule: Rule, steps: seq<Step>)
    requires OnceEach(rule, steps)
    ensures |AllAdded(rule, steps)| == |steps|
    ensures forall i | 0 <= i < |steps| :: AllAdded(rule, steps)[i].eventId == steps[i].event.id
  {
    hide Matched;
    if steps != [] {
      OneEntryEach(rule, steps[..|steps| - 1]);
      assert |Matched(rule, steps[|steps| - 1].alerts)| == 1;
    }
  }

  lemma NothingFires(rule: Rule, steps: seq<Step>)
    requires |steps| <= 1
    ensures NotYetFired(rule, steps)
  {
  }

  lemma FiredLater(rule: Rule, steps: seq<Step>)
    requires |steps| >= 2 && NotYetFired(rule, steps[..|steps| - 1])
    requires LastAlert(rule, map[], steps[..|steps| - 1]).None?
    ensures NotYetFired(rule, steps)
  {
    hide LastAlert;
    var init := steps[..|steps| - 1];
    forall k | 0 < k < |steps| ensures LastAlert(rule, map[], steps[..k]).None? {
      if k < |init| {
        assert init[..k] == steps[..k];
      }
    }
  }

  lemma BurstPrefix(rule: Rule, steps: seq<Step>)
    requires Burst(rule, steps) && OnceEach(rule, steps) && |steps| >= 2
    ensures Burst(rule, steps[..|steps| - 1]) && OnceEach(rule, steps[..|steps| - 1])
  {
    hide SameGroup, Matched;
  }

  lemma CountHolds(rule: Rule, n: nat, w: seq<Entry>)
    requires rule.kind == EventCount && rule.condition == AtLeast(n)
    ensures Holds(rule, w) <==> |w| >= n
  {
  }

  /** A rule that counts to n fires exactly at the n-th match of a burst, and names the
      events in order. */
  lemma {:induction false} FiresAtTheNth(rule: Rule, n: nat, steps: seq<Step>)
    requires rule.kind == EventCount && rule.condition == AtLeast(n) && 1 <= |steps| <= n
    requires Burst(rule, steps) && OnceEach(rule, steps)
    ensures NotYetFired(rule, steps)
    ensures LastAlert(rule, map[], steps).Some? <==> |steps| == n
    ensures |steps| == n && (forall i | 0 <= i < n - 1 :: steps[i].event.id != steps[i + 1].event.id) ==>
              LastAlert(rule, map[], steps).value.events == seq(n, i requires 0 <= i < n => steps[i].event.id)
  {
    hide LastAlert, Holds, Burst, OnceEach, NotYetFired, AlertOf, AllAdded, GroupKey;
    if |steps| == 1 {
      NothingFires(rule, steps);
    } else {
      BurstPrefix(rule, steps);
      FiresAtTheNth(rule, n, steps[..|steps| - 1]);
      FiredLater(rule, steps);
    }
    LooksAtAll(rule, steps);
    OneEntryEach(rule, steps);
    CountHolds(rule, n, AllAdded(rule, steps));
    if |steps| == n && forall i | 0 <= i < n - 1 :: steps[i].event.id != steps[i + 1].event.id {
      NamesAll(rule, AllAdded(rule, steps), Now(steps[|steps| - 1]), steps);
    }
  }

  lemma {:induction false} DedupNothing(xs: seq<string>)
    requires forall i | 0 <= i < |xs| - 1 :: xs[i] != xs[i + 1]
    ensures Dedup(xs) == xs
  {
    if xs != [] {
      var init := xs[..|xs| - 1];
      forall i | 0 <= i < |init| - 1 ensures init[i] != init[i + 1] {
        assert xs[i] != xs[i + 1];
      }
      DedupNothing(init);
      assert xs == init + [xs[|xs| - 1]];
      if |xs| >= 2 {
        assert xs[|xs| - 2] != xs[|xs| - 2 + 1];
      }
    }
  }

  lemma NamesAll(rule: Rule, w: seq<Entry>, now: int, steps: seq<Step>)
    requires |w| == |steps| && forall i | 0 <= i < |w| :: w[i].eventId == steps[i].event.id
    requires forall i | 0 <= i < |steps| - 1 :: steps[i].event.id != steps[i + 1].event.id
    ensures AlertOf(rule, w, now).events ==
              seq(|steps|, i requires 0 <= i < |steps| => steps[i].event.id)
  {
    forall i | 0 <= i < |Ids(w)| - 1 ensures Ids(w)[i] != Ids(w)[i + 1] {
      assert steps[i].event.id != steps[i + 1].event.id;
    }
    DedupNothing(Ids(w));
  }

  // --- counting values --------------------

  /** The first values of a field that a run's events have. */
  function FirstValues(field: string, steps: seq<Step>): set<string> {
    set i | 0 <= i < |steps| && field in steps[i].event.fields && steps[i].event.fields[field] != [] ::
      steps[i].event.fields[field][0]
  }

  lemma {:induction false} ValuesAreFirst(rule: Rule, field: string, steps: seq<Step>)
    requires rule.condition.field == Some(field) && OnceEach(rule, steps)
    ensures Values(AllAdded(rule, steps)) == FirstValues(field, steps)
  {
    if steps != [] {
      var init, last := steps[..|steps| - 1], steps[|steps| - 1];
      ValuesAreFirst(rule, field, init);
      assert |Matched(rule, last.alerts)| == 1;
      hide Matched;
      OneMoreValue(rule, field, AllAdded(rule, init), last);
      FirstOneMore(field, init, last);
      assert steps == init + [last];
    }
  }

  lemma OneMoreValue(rule: Rule, field: string, w: seq<Entry>, last: Step)
    requires rule.condition.field == Some(field) && |Matched(rule, last.alerts)| == 1
    ensures Values(w + Added(rule, last)) == Values(w) + FirstValues(field, [last])
  {
    hide Matched;
    var e := EntryOf(rule, last, Matched(rule, last.alerts)[0]);
    assert Added(rule, last) == [e];
    forall v | v in Values(w + [e]) ensures v in Values(w) + FirstValues(field, [last]) {
      var x :| x in w + [e] && x.value.Some? && x.value.value == v;
      if x !in w {
        assert x == e && [last][0] == last;
      }
    }
    forall v | v in Values(w) + FirstValues(field, [last]) ensures v in Values(w + [e]) {
      if v in Values(w) {
        var x :| x in w && x.value.Some? && x.value.value == v;
        assert x in w + [e];
      } else {
        assert e in w + [e] && e.value == Some(v);
      }
    }
  }

  lemma FirstOneMore(field: string, init: seq<Step>, last: Step)
    ensures FirstValues(field, init + [last]) == FirstValues(field, init) + FirstValues(field, [last])
  {
    var all := init + [last];
    assert forall i | 0 <= i < |init| :: all[i] == init[i];
    assert all[|init|] == last && [last][0] == last;
    forall v | v in FirstValues(field, init) ensures v in FirstValues(field, all) {
      var i :| 0 <= i < |init| && field in init[i].event.fields && init[i].event.fields[field] != [] &&
               init[i].event.fields[field][0] == v;
      assert all[i] == init[i];
    }
  }

  /** A rule that counts n different values fires exactly when the burst has shown n. */
  lemma FiresAtTheNthValue(rule: Rule, field: string, n: nat, steps: seq<Step>)
    requires rule.kind == ValueCount && rule.condition == AtLeast(n).(field := Some(field))
    requires Burst(rule, steps) && OnceEach(rule, steps) && NotYetFired(rule, steps) && steps != []
    ensures LastAlert(rule, map[], steps).Some? <==> |FirstValues(field, steps)| >= n
  {
    LooksAtAll(rule, steps);
    ValuesAreFirst(rule, field, steps);
    hide LastAlert, Burst, OnceEach, NotYetFired, AlertOf, AllAdded, GroupKey, FirstValues, Values;
  }

  /** The base rule matched at some step. */
  ghost predicate Seen(steps: seq<Step>, ruleId: string) {
    exists i, a :: 0 <= i < |steps| && a in steps[i].alerts && a.ruleId == ruleId
  }

  lemma AddedOccurs(rule: Rule, step: Step, ruleId: string)
    requires ruleId in rule.rules
    ensures Occurs(Added(rule, step), ruleId) <==> exists a :: a in step.alerts && a.ruleId == ruleId
  {
    var matched, added := Matched(rule, step.alerts), Added(rule, step);
    if k :| 0 <= k < |added| && added[k].ruleId == ruleId {
      assert matched[k] in matched;
    }
    if a :| a in step.alerts && a.ruleId == ruleId {
      assert a in matched;
      var k :| 0 <= k < |matched| && matched[k] == a;
      assert added[k].ruleId == ruleId;
    }
  }

  lemma OccursJoined(a: seq<Entry>, b: seq<Entry>, ruleId: string)
    ensures Occurs(a + b, ruleId) <==> Occurs(a, ruleId) || Occurs(b, ruleId)
  {
    if k :| 0 <= k < |a| && a[k].ruleId == ruleId {
      assert (a + b)[k] == a[k];
    }
    if k :| 0 <= k < |b| && b[k].ruleId == ruleId {
      assert (a + b)[|a| + k] == b[k];
    }
  }

  lemma SeenLater(init: seq<Step>, last: Step, ruleId: string)
    ensures Seen(init + [last], ruleId) <==> Seen(init, ruleId) || exists a :: a in last.alerts && a.ruleId == ruleId
  {
    var all := init + [last];
    assert all[|init|] == last;
    if i, a :| 0 <= i < |init| && a in init[i].alerts && a.ruleId == ruleId {
      assert all[i] == init[i];
    }
  }

  lemma {:induction false} OccursExactly(rule: Rule, steps: seq<Step>, ruleId: string)
    requires ruleId in rule.rules
    ensures Occurs(AllAdded(rule, steps), ruleId) <==> Seen(steps, ruleId)
  {
    hide Added, Occurs, Seen;
    if steps == [] {
      NothingSeenYet(rule, ruleId);
    } else {
      var init, last := steps[..|steps| - 1], steps[|steps| - 1];
      OccursExactly(rule, init, ruleId);
      AddedOccurs(rule, last, ruleId);
      OccursJoined(AllAdded(rule, init), Added(rule, last), ruleId);
      SeenLater(init, last, ruleId);
      assert steps == init + [last];
    }
  }

  lemma NothingSeenYet(rule: Rule, ruleId: string)
    ensures !Occurs(AllAdded(rule, []), ruleId) && !Seen([], ruleId)
  {
  }

  /** A temporal rule fires exactly when all rules it refers to have matched in the
      burst. */
  lemma FiresWhenAllSeen(rule: Rule, steps: seq<Step>)
    requires rule.kind == Temporal && Burst(rule, steps) && NotYetFired(rule, steps) && steps != []
    ensures LastAlert(rule, map[], steps).Some? <==> forall id | id in rule.rules :: Seen(steps, id)
  {
    LooksAtAll(rule, steps);
    hide LastAlert, Burst, NotYetFired, AlertOf, AllAdded, GroupKey, Occurs, Seen;
    forall id | id in rule.rules ensures Occurs(AllAdded(rule, steps), id) <==> Seen(steps, id) {
      OccursExactly(rule, steps, id);
    }
  }

  // --- the bounds of a count --------------------

  /** The bounds say what they are called, and hold together when each does. */
  lemma BoundsMean(c: CountCondition, n: nat, k: nat)
    ensures var any := CountCondition(None, None, None, None, None, None);
            && any.Satisfied(n)
            && (any.(eq := Some(k)).Satisfied(n) <==> n == k)
            && (any.(gt := Some(k)).Satisfied(n) <==> !any.(lte := Some(k)).Satisfied(n))
            && (any.(lt := Some(k)).Satisfied(n) <==> !any.(gte := Some(k)).Satisfied(n))
            && (any.(gte := Some(k)).Satisfied(n) <==>
                  any.(gt := Some(k)).Satisfied(n) || any.(eq := Some(k)).Satisfied(n))
            && (any.(gt := Some(k)).Satisfied(n) <==> any.(gte := Some(k + 1)).Satisfied(n))
            && (c.Satisfied(n) <==>
                  any.(gt := c.gt).Satisfied(n) && any.(gte := c.gte).Satisfied(n) && any.(lt := c.lt).Satisfied(n) &&
                  any.(lte := c.lte).Satisfied(n) && any.(eq := c.eq).Satisfied(n))
  {
  }
}
