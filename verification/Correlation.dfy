/** Correlation rules over sliding windows: the engine as it works, step by step. */
module Correlation {
  import opened Options

  /** An event as rules see it: field names resolve to lists of values. */
  datatype Event = Event(id: string, ts: int, fields: map<string, seq<string>>)

  datatype Alert = Alert(ruleId: string, title: string, severity: nat, technique: Option<string>, events: seq<string>,
                         ts: int)

  datatype Kind = EventCount | ValueCount | Temporal | TemporalOrdered

  datatype CountCondition = CountCondition(field: Option<string>, gt: Option<nat>, gte: Option<nat>, lt: Option<nat>,
                                           lte: Option<nat>, eq: Option<nat>)
  {
    predicate Satisfied(n: nat) {
      && (gt.Some? ==> n > gt.value)
      && (gte.Some? ==> n >= gte.value)
      && (lt.Some? ==> n < lt.value)
      && (lte.Some? ==> n <= lte.value)
      && (eq.Some? ==> n == eq.value)
    }
  }

  datatype Rule = Rule(ruleId: string, title: string, severity: nat, technique: Option<string>, kind: Kind,
                       rules: seq<string>, groupBy: seq<string>, timespan: int, condition: CountCondition,
                       generate: bool)

  /** One base match remembered inside a window. */
  datatype Entry = Entry(ts: int, ruleId: string, eventId: string, value: Option<string>)

  /** One event with its base alerts; `clock` is read only when the event has no time. */
  datatype Step = Step(event: Event, alerts: seq<Alert>, clock: int)

  type Windows = map<string, seq<Entry>>

  // --- the group of an event ------------------------------------------------------------------

  function Resolve(event: Event, field: string): seq<string> {
    if field in event.fields then event.fields[field] else []
  }

  predicate LexLe(a: string, b: string) {
    a == "" || (b != "" && (a[0] < b[0] || (a[0] == b[0] && LexLe(a[1..], b[1..]))))
  }

  function InsertString(xs: seq<string>, x: string): seq<string> {
    if xs == [] then [x]
    else if LexLe(x, xs[0]) then [x] + xs
    else [xs[0]] + InsertString(xs[1..], x)
  }

  function SortStrings(xs: seq<string>): seq<string> {
    if xs == [] then [] else InsertString(SortStrings(xs[1..]), xs[0])
  }

  function Join(parts: seq<string>, sep: string): string {
    if parts == [] then "" else if |parts| == 1 then parts[0] else parts[0] + sep + Join(parts[1..], sep)
  }

  /** The group-by values, joined stably. */
  function GroupKey(rule: Rule, event: Event): string {
    Join(seq(|rule.groupBy|, i requires 0 <= i < |rule.groupBy| =>
               Join(SortStrings(Resolve(event, rule.groupBy[i])), ",")), "\U{1f}")
  }

  // --- one rule on one step ---------------------------------------------------------------------

  function Now(step: Step): int {
    if step.event.ts != 0 then step.event.ts else step.clock
  }

  function Matched(rule: Rule, alerts: seq<Alert>): (m: seq<Alert>)
    ensures forall a :: a in m <==> a in alerts && a.ruleId in rule.rules
  {
    if alerts == [] then []
    else
      assert alerts == alerts[..|alerts| - 1] + [alerts[|alerts| - 1]];
      Matched(rule, alerts[..|alerts| - 1]) +
        (if alerts[|alerts| - 1].ruleId in rule.rules then [alerts[|alerts| - 1]] else [])
  }

  function EntryOf(rule: Rule, step: Step, alert: Alert): Entry {
    Entry(Now(step), alert.ruleId, step.event.id,
          match rule.condition.field
          case None => None
          case Some(f) => var vals := Resolve(step.event, f); if vals == [] then None else Some(vals[0]))
  }

  /** What a step adds to its group's window. */
  function Added(rule: Rule, step: Step): seq<Entry> {
    var matched := Matched(rule, step.alerts);
    seq(|matched|, i requires 0 <= i < |matched| => EntryOf(rule, step, matched[i]))
  }

  /** Drops entries from the front while they are too old. */
  function Trim(w: seq<Entry>, cutoff: int): seq<Entry> {
    if w != [] && w[0].ts < cutoff then Trim(w[1..], cutoff) else w
  }

  function Values(w: seq<Entry>): set<string> {
    set e | e in w && e.value.Some? :: e.value.value
  }

  /** Some entry of the window comes from the base rule. */
  predicate Occurs(w: seq<Entry>, ruleId: string) {
    exists k | 0 <= k < |w| :: w[k].ruleId == ruleId
  }

  /** The listed rules occur in the window in the listed order. */
  ghost predicate Embeds(rules: seq<string>, w: seq<Entry>) {
    exists at :: EmbedsAt(rules, w, at)
  }

  ghost predicate EmbedsAt(rules: seq<string>, w: seq<Entry>, at: seq<nat>) {
    && |at| == |rules|
    && (forall i | 0 <= i < |at| :: at[i] < |w| && w[at[i]].ruleId == rules[i])
    && (forall i, j | 0 <= i < j < |at| :: at[i] < at[j])
  }

  /** The aggregate condition of a rule on a window. */
  ghost predicate Holds(rule: Rule, w: seq<Entry>) {
    match rule.kind
    case EventCount => rule.condition.Satisfied(|w|)
    case ValueCount => rule.condition.Satisfied(|Values(w)|)
    case Temporal => forall id | id in rule.rules :: Occurs(w, id)
    case TemporalOrdered => Embeds(rule.rules, w)
  }

  /** Drops an element equal to the one before it. */
  function Dedup(xs: seq<string>): (r: seq<string>)
    ensures forall x :: x in r <==> x in xs
    ensures xs != [] ==> r != [] && r[|r| - 1] == xs[|xs| - 1]
    ensures forall i | 0 <= i < |r| - 1 :: r[i] != r[i + 1]
  {
    if xs == [] then []
    else
      var init, last := xs[..|xs| - 1], xs[|xs| - 1];
      assert xs == init + [last];
      if init != [] && init[|init| - 1] == last then Dedup(init) else Dedup(init) + [last]
  }

  function Ids(w: seq<Entry>): seq<string> {
    seq(|w|, i requires 0 <= i < |w| => w[i].eventId)
  }

  function AlertOf(rule: Rule, w: seq<Entry>, now: int): Alert {
    Alert(rule.ruleId, rule.title, rule.severity, rule.technique, Dedup(Ids(w)), now)
  }

  function Window(ws: Windows, g: string): seq<Entry> {
    if g in ws then ws[g] else []
  }

  /** A rule's windows after a step, and the alert it fires. */
  ghost function RuleStep(rule: Rule, ws: Windows, step: Step): (Windows, Option<Alert>) {
    if Matched(rule, step.alerts) == [] then (ws, None)
    else
      var key := GroupKey(rule, step.event);
      var w := Trim(Window(ws, key) + Added(rule, step), Now(step) - rule.timespan);
      if Holds(rule, w) then (ws[key := []], Some(AlertOf(rule, w, Now(step))))
      else (ws[key := w], None)
  }

  // --- evaluating a window --------------------------------------------------------------------------

  lemma EmbedsOne(rules: seq<string>, w: seq<Entry>, n: nat, i: nat)
    requires n < |rules| && i < |w| && rules[n] == w[i].ruleId && Embeds(rules[..n], w[..i])
    ensures Embeds(rules[..n + 1], w[..i + 1])
  {
    var at :| EmbedsAt(rules[..n], w[..i], at);
    assert EmbedsAt(rules[..n + 1], w[..i + 1], at + [i]);
  }

  /** An embedding into one more entry either avoids it or ends with it. */
  lemma EmbedsBack(rules: seq<string>, w: seq<Entry>, n: nat, i: nat)
    requires n < |rules| && i < |w| && Embeds(rules[..n + 1], w[..i + 1])
    ensures Embeds(rules[..n], w[..i])
    ensures rules[n] != w[i].ruleId ==> Embeds(rules[..n + 1], w[..i])
  {
    var at :| EmbedsAt(rules[..n + 1], w[..i + 1], at);
    assert forall k | 0 <= k < n :: at[k] < at[n];
    assert EmbedsAt(rules[..n], w[..i], at[..n]);
    if rules[n] != w[i].ruleId {
      assert w[..i + 1][at[n]].ruleId == rules[n];
      assert EmbedsAt(rules[..n + 1], w[..i], at);
    }
  }

  lemma EmbedsFewer(rules: seq<string>, w: seq<Entry>, n: nat)
    requires n <= |rules| && Embeds(rules, w)
    ensures Embeds(rules[..n], w)
  {
    var at :| EmbedsAt(rules, w, at);
    assert EmbedsAt(rules[..n], w, at[..n]);
  }

  lemma EmbedsNone(w: seq<Entry>)
    ensures Embeds([], w)
  {
    assert EmbedsAt([], w, []);
  }

  lemma FirstPlace(rules: seq<string>, w: seq<Entry>, at: seq<nat>)
    requires rules != [] && EmbedsAt(rules, w, at)
    ensures w != []
  {
    assert at[0] < |w|;
  }

  lemma EmbedsNowhere(rules: seq<string>)
    requires rules != []
    ensures !Embeds(rules, [])
  {
    if at :| EmbedsAt(rules, [], at) {
      FirstPlace(rules, [], at);
    }
  }

  /** One greedy pass decides whether the rules occur in order. */
  method InOrder(rules: seq<string>, w: seq<Entry>) returns (r: bool)
    ensures r <==> Embeds(rules, w)
  {
    hide Embeds;
    var next := 0;
    EmbedsNone([]);
    assert rules[..0] == [] && w[..0] == [];
    if rules != [] {
      EmbedsNowhere(rules[..1]);
    }
    for i := 0 to |w|
      invariant next <= |rules| && Embeds(rules[..next], w[..i])
      invariant next < |rules| ==> !Embeds(rules[..next + 1], w[..i])
    {
      if next < |rules| && rules[next] == w[i].ruleId {
        EmbedsOne(rules, w, next, i);
        if next + 1 < |rules| && Embeds(rules[..next + 2], w[..i + 1]) {
          EmbedsBack(rules, w, next + 1, i);
        }
        next := next + 1;
      } else {
        Onward(rules, w, next, i);
        if next < |rules| && Embeds(rules[..next + 1], w[..i + 1]) {
          EmbedsBack(rules, w, next, i);
        }
      }
    }
    assert w[..|w|] == w;
    if next < |rules| && Embeds(rules, w) {
      EmbedsFewer(rules, w, next + 1);
    }
    assert next == |rules| ==> rules[..next] == rules;
    r := next == |rules|;
  }

  lemma Onward(rules: seq<string>, w: seq<Entry>, n: nat, i: nat)
    requires n <= |rules| && i < |w| && Embeds(rules[..n], w[..i])
    ensures Embeds(rules[..n], w[..i + 1])
  {
    var at :| EmbedsAt(rules[..n], w[..i], at);
    assert EmbedsAt(rules[..n], w[..i + 1], at);
  }

  method Evaluate(rule: Rule, w: seq<Entry>) returns (r: bool)
    ensures r <==> Holds(rule, w)
  {
    match rule.kind
    case EventCount =>
      r := rule.condition.Satisfied(|w|);
    case ValueCount =>
      r := rule.condition.Satisfied(|Values(w)|);
    case Temporal =>
      r := forall id | id in rule.rules :: Occurs(w, id);
    case TemporalOrdered =>
      r := InOrder(rule.rules, w);
  }

  // --- the engine ----------------------------------------------------------------------------------------

  /** The alerts of one step, rule by rule in rule order. */
  ghost function FiredBy(rules: seq<Rule>, windows: seq<Windows>, step: Step): seq<Alert>
    requires |rules| == |windows|
  {
    if rules == [] then []
    else
      FiredBy(rules[..|rules| - 1], windows[..|rules| - 1], step) +
      (match RuleStep(rules[|rules| - 1], windows[|rules| - 1], step).1
       case None => []
       case Some(a) => [a])
  }

  ghost function Advanced(rules: seq<Rule>, windows: seq<Windows>, step: Step): seq<Windows>
    requires |rules| == |windows|
  {
    seq(|rules|, i requires 0 <= i < |rules| => RuleStep(rules[i], windows[i], step).0)
  }

  /** Base rules whose alerts are withheld. */
  function Suppressed(rules: seq<Rule>): set<string> {
    set i, r | 0 <= i < |rules| && !rules[i].generate && r in rules[i].rules :: r
  }

  class CorrelationEngine {
    const rules: seq<Rule>
    var windows: seq<Windows>

    ghost predicate Valid()
      reads this
    {
      |windows| == |rules|
    }

    constructor (rules: seq<Rule>)
      ensures Valid() && this.rules == rules
      ensures forall i | 0 <= i < |windows| :: windows[i] == map[]
    {
      this.rules := rules;
      windows := seq(|rules|, _ => map[]);
    }

    /** True exactly when some rule refers to it and does not ask for its alerts. */
    method IsSuppressed(baseRuleId: string) returns (r: bool)
      ensures r <==> baseRuleId in Suppressed(rules)
      ensures r <==> exists i :: 0 <= i < |rules| && !rules[i].generate && baseRuleId in rules[i].rules
    {
      r := baseRuleId in Suppressed(rules);
    }

    /** One rule's part of a step. */
    method Apply(i: nat, step: Step) returns (alert: Option<Alert>)
      requires Valid() && i < |rules|
      modifies this`windows
      ensures Valid() && (windows[i], alert) == RuleStep(rules[i], old(windows)[i], step)
      ensures forall j | 0 <= j < |windows| && j != i :: windows[j] == old(windows)[j]
    {
      hide Holds, Matched, GroupKey, AlertOf, EntryOf;
      var rule := rules[i];
      var matched := Matched(rule, step.alerts);
      if matched == [] {
        return None;
      }
      var key := GroupKey(rule, step.event);
      var window := if key in windows[i] then windows[i][key] else [];
      var now := if step.event.ts != 0 then step.event.ts else step.clock;
      ghost var before := window;
      for k := 0 to |matched|
        invariant window == before + Added(rule, step)[..k]
      {
        window := window + [EntryOf(rule, step, matched[k])];
      }
      assert window == before + Added(rule, step);
      ghost var all := window;
      while window != [] && window[0].ts < now - rule.timespan
        invariant Trim(window, now - rule.timespan) == Trim(all, now - rule.timespan)
        decreases |window|
      {
        window := window[1..];
      }
      var holds := Evaluate(rule, window);
      if !holds {
        windows := windows[i := windows[i][key := window]];
        return None;
      }
      alert := Some(AlertOf(rule, window, now));
      windows := windows[i := windows[i][key := []]];
    }

    method Process(step: Step) returns (fired: seq<Alert>)
      requires Valid()
      modifies this`windows
      ensures Valid() && windows == Advanced(rules, old(windows), step)
      ensures fired == FiredBy(rules, old(windows), step)
    {
      hide RuleStep;
      fired := [];
      ghost var before := windows;
      for i := 0 to |rules|
        invariant Valid() && |before| == |rules|
        invariant forall j | 0 <= j < i :: windows[j] == RuleStep(rules[j], before[j], step).0
        invariant forall j | i <= j < |rules| :: windows[j] == before[j]
        invariant fired == FiredBy(rules[..i], before[..i], step)
      {
        assert rules[..i + 1][..i] == rules[..i] && before[..i + 1][..i] == before[..i];
        var alert := Apply(i, step);
        if alert.Some? {
          fired := fired + [alert.value];
        }
      }
      assert rules[..|rules|] == rules && before[..|rules|] == before;
    }
  }
}
