/** What the sliding windows mean: they refine the unbounded history of matches, one
    group does not see another, and no stored window is overdue. */
module CorrelationHistory {
  import opened Options
  import opened Correlation

  // --- a run of one rule ---------------------------------------------------------------------------

  /** A rule's windows after a run of steps. */
  ghost function After(rule: Rule, ws: Windows, steps: seq<Step>): Windows {
    if steps == [] then ws
    else RuleStep(rule, After(rule, ws, steps[..|steps| - 1]), steps[|steps| - 1]).0
  }

  /** The alert, if any, fired by the last step of a run. */
  ghost function LastAlert(rule: Rule, ws: Windows, steps: seq<Step>): Option<Alert>
    requires steps != []
  {
    RuleStep(rule, After(rule, ws, steps[..|steps| - 1]), steps[|steps| - 1]).1
  }

  /** A step that concerns a rule's group. */
  predicate Concerns(rule: Rule, g: string, step: Step) {
    Matched(rule, step.alerts) != [] && GroupKey(rule, step.event) == g
  }

  /** A step changes only its own group's window. */
  lemma StepAtGroup(rule: Rule, ws: Windows, step: Step, g: string)
    ensures !Concerns(rule, g, step) ==> Window(RuleStep(rule, ws, step).0, g) == Window(ws, g)
    ensures Concerns(rule, g, step) ==>
              var w := Trim(Window(ws, g) + Added(rule, step), Now(step) - rule.timespan);
              && Window(RuleStep(rule, ws, step).0, g) == (if Holds(rule, w) then [] else w)
              && RuleStep(rule, ws, step).1 == (if Holds(rule, w) then Some(AlertOf(rule, w, Now(step))) else None)
  {
    hide Holds, Trim, Added, AlertOf, Matched, GroupKey;
  }

  // --- no stored window is overdue ---------------------------------------------------------------------

  ghost predicate NothingOverdue(rule: Rule, ws: Windows) {
    forall g | g in ws :: ws[g] == [] || !Holds(rule, ws[g])
  }

  /** Every non-empty stored window fails its own rule, whatever the steps. */
  lemma {:induction false} NeverOverdue(rule: Rule, ws: Windows, steps: seq<Step>)
    requires NothingOverdue(rule, ws)
    ensures NothingOverdue(rule, After(rule, ws, steps))
  {
    if steps != [] {
      NeverOverdue(rule, ws, steps[..|steps| - 1]);
      hide Holds, Trim, Added, AlertOf, Matched, GroupKey;
    }
  }

  // --- windows refine history -------------------------------------------------------------------------

  /** The entries not older than a cutoff, wherever they stand. */
  function Within(w: seq<Entry>, cutoff: int): seq<Entry> {
    if w == [] then []
    else Within(w[..|w| - 1], cutoff) + (if w[|w| - 1].ts < cutoff then [] else [w[|w| - 1]])
  }

  /** All of a group's matches since its last firing; nothing is ever dropped for
      its age. */
  ghost function Since(rule: Rule, g: string, steps: seq<Step>): seq<Entry> {
    if steps == [] then []
    else
      var earlier, last := Since(rule, g, steps[..|steps| - 1]), steps[|steps| - 1];
      if !Concerns(rule, g, last) then earlier
      else if Holds(rule, Within(earlier + Added(rule, last), Now(last) - rule.timespan)) then []
      else earlier + Added(rule, last)
  }

  /** What history says about the last step: it fires exactly when the condition holds
      of its group's matches since the last firing within the time span. */
  ghost function HistoryAlert(rule: Rule, steps: seq<Step>): Option<Alert>
    requires steps != []
  {
    var last := steps[|steps| - 1];
    var g := GroupKey(rule, last.event);
    var w := Within(Since(rule, g, steps[..|steps| - 1]) + Added(rule, last), Now(last) - rule.timespan);
    if Matched(rule, last.alerts) != [] && Holds(rule, w) then Some(AlertOf(rule, w, Now(last))) else None
  }

  /** Time does not go backwards. */
  ghost predicate InTime(steps: seq<Step>) {
    forall i, j | 0 <= i < j < |steps| :: Now(steps[i]) <= Now(steps[j])
  }

  ghost predicate Rising(w: seq<Entry>) {
    forall i, j | 0 <= i < j < |w| :: w[i].ts <= w[j].ts
  }

  ghost predicate UpTo(w: seq<Entry>, now: int) {
    forall i | 0 <= i < |w| :: w[i].ts <= now
  }

  lemma {:induction false} WithinJoin(a: seq<Entry>, b: seq<Entry>, cutoff: int)
    ensures Within(a + b, cutoff) == Within(a, cutoff) + Within(b, cutoff)
  {
    if b == [] {
      assert a + b == a;
    } else {
      var init := b[..|b| - 1];
      WithinJoin(a, init, cutoff);
      assert (a + b)[..|a + b| - 1] == a + init;
    }
  }

  /** A later cutoff overrides an earlier one. */
  lemma {:induction false} WithinTwice(w: seq<Entry>, early: int, late: int)
    requires early <= late
    ensures Within(Within(w, early), late) == Within(w, late)
  {
    if w != [] {
      var init, last := w[..|w| - 1], w[|w| - 1];
      WithinTwice(init, early, late);
      if last.ts < early {
        assert Within(w, early) == Within(init, early) && Within(w, late) == Within(init, late);
      } else {
        assert (Within(init, early) + [last])[..|Within(init, early)|] == Within(init, early);
      }
    }
  }

  lemma {:induction false} WithinAll(w: seq<Entry>, cutoff: int)
    requires forall i | 0 <= i < |w| :: w[i].ts >= cutoff
    ensures Within(w, cutoff) == w
  {
    if w != [] {
      WithinAll(w[..|w| - 1], cutoff);
      assert w == w[..|w| - 1] + [w[|w| - 1]];
    }
  }

  lemma {:induction false} WithinNone(w: seq<Entry>, cutoff: int)
    requires forall i | 0 <= i < |w| :: w[i].ts < cutoff
    ensures Within(w, cutoff) == []
  {
    if w != [] {
      WithinNone(w[..|w| - 1], cutoff);
    }
  }

  /** On a window in time order, dropping from the front drops exactly the old
      entries. */
  lemma {:induction false} TrimIsWithin(w: seq<Entry>, cutoff: int)
    requires Rising(w)
    ensures Trim(w, cutoff) == Within(w, cutoff)
    ensures Rising(Trim(w, cutoff)) && forall now | UpTo(w, now) :: UpTo(Trim(w, cutoff), now)
  {
    if w != [] && w[0].ts < cutoff {
      TrimIsWithin(w[1..], cutoff);
      WithinJoin([w[0]], w[1..], cutoff);
      WithinNone([w[0]], cutoff);
      assert w == [w[0]] + w[1..];
    } else {
      WithinAll(w, cutoff);
    }
  }

  lemma AddedNow(rule: Rule, step: Step)
    ensures forall i | 0 <= i < |Added(rule, step)| :: Added(rule, step)[i].ts == Now(step)
  {
  }

  lemma AfterStep(rule: Rule, ws: Windows, steps: seq<Step>)
    requires steps != []
    ensures After(rule, ws, steps) == RuleStep(rule, After(rule, ws, steps[..|steps| - 1]), steps[|steps| - 1]).0
  {
  }

  lemma InTimeBefore(steps: seq<Step>)
    requires steps != [] && InTime(steps)
    ensures var init := steps[..|steps| - 1];
            InTime(init) && (init != [] ==> Now(init[|init| - 1]) <= Now(steps[|steps| - 1]))
  {
  }

  lemma AllInTime(w: seq<Entry>, added: seq<Entry>, now: int, cutoff: int)
    requires Rising(w) && UpTo(w, now) && forall i | 0 <= i < |added| :: added[i].ts == now
    ensures Rising(Trim(w + added, cutoff)) && UpTo(Trim(w + added, cutoff), now)
  {
    TrimIsWithin(w + added, cutoff);
  }

  lemma UpToLater(w: seq<Entry>, now: int, later: int)
    requires UpTo(w, now) && now <= later
    ensures UpTo(w, later)
  {
  }

  /** The stored window is in time order and not ahead of the run. */
  lemma {:induction false} WindowInTime(rule: Rule, g: string, steps: seq<Step>, now: int)
    requires InTime(steps) && (steps != [] ==> Now(steps[|steps| - 1]) <= now)
    ensures Rising(Window(After(rule, map[], steps), g)) && UpTo(Window(After(rule, map[], steps), g), now)
  {
    hide *;
    if steps == [] {
      NothingSeen(rule, g);
      NoneInTime(now);
    } else {
      var init, last := steps[..|steps| - 1], steps[|steps| - 1];
      var ws := After(rule, map[], init);
      InTimeBefore(steps);
      WindowInTime(rule, g, init, Now(last));
      AfterStep(rule, map[], steps);
      StepAtGroup(rule, ws, last, g);
      AddedNow(rule, last);
      AllInTime(Window(ws, g), Added(rule, last), Now(last), Now(last) - rule.timespan);
      NoneInTime(now);
      UpToLater(Window(After(rule, map[], steps), g), Now(last), now) by { NoneInTime(Now(last)); }
    }
  }

  lemma NoneInTime(now: int)
    ensures Rising([]) && UpTo([], now)
  {
  }

  /** Adding the present matches to a window and to the history it agrees with. */
  lemma SameLook(w: seq<Entry>, history: seq<Entry>, added: seq<Entry>, now: int, cutoff: int)
    requires Rising(w) && UpTo(w, now) && forall i | 0 <= i < |added| :: added[i].ts == now
    requires Within(w, cutoff) == Within(history, cutoff)
    ensures Trim(w + added, cutoff) == Within(history + added, cutoff) == Within(w + added, cutoff)
  {
    WithinJoin(w, added, cutoff);
    WithinJoin(history, added, cutoff);
    TrimIsWithin(w + added, cutoff);
  }

  lemma SinceStep(rule: Rule, g: string, steps: seq<Step>)
    requires steps != []
    ensures var earlier, last := Since(rule, g, steps[..|steps| - 1]), steps[|steps| - 1];
            Since(rule, g, steps) ==
              if !Concerns(rule, g, last) then earlier
              else if Holds(rule, Within(earlier + Added(rule, last), Now(last) - rule.timespan)) then []
              else earlier + Added(rule, last)
  {
  }

  /** Two lists that agree from an early cutoff on agree from a later one. */
  lemma LaterView(kept: seq<Entry>, history: seq<Entry>, early: int, late: int)
    requires kept == Within(history, early) && early <= late
    ensures Within(kept, late) == Within(history, late)
  {
    WithinTwice(history, early, late);
  }

  lemma NothingSeen(rule: Rule, g: string)
    ensures Window(After(rule, map[], []), g) == Since(rule, g, []) == []
  {
  }

  /** Within any later time span the stored window and the history agree. */
  lemma {:induction false} WindowIsHistory(rule: Rule, g: string, steps: seq<Step>, now: int)
    requires InTime(steps) && (steps != [] ==> Now(steps[|steps| - 1]) <= now)
    ensures Within(Window(After(rule, map[], steps), g), now - rule.timespan) ==
              Within(Since(rule, g, steps), now - rule.timespan)
    decreases |steps|, 0
  {
    hide *;
    if steps == [] {
      NothingSeen(rule, g);
    } else {
      var init, last := steps[..|steps| - 1], steps[|steps| - 1];
      InTimeBefore(steps);
      AfterStep(rule, map[], steps);
      StepAtGroup(rule, After(rule, map[], init), last, g);
      SinceStep(rule, g, steps);
      if Concerns(rule, g, last) {
        SameView(rule, g, init, last);
        LaterView(Trim(Window(After(rule, map[], init), g) + Added(rule, last), Now(last) - rule.timespan),
                  Since(rule, g, init) + Added(rule, last), Now(last) - rule.timespan, now - rule.timespan);
      } else {
        WindowIsHistory(rule, g, init, now);
      }
    }
  }

  /** At a step of the group, what the engine looks at is what history looks at. */
  lemma SameView(rule: Rule, g: string, init: seq<Step>, last: Step)
    requires InTime(init) && (init != [] ==> Now(init[|init| - 1]) <= Now(last))
    ensures var cutoff := Now(last) - rule.timespan;
            Trim(Window(After(rule, map[], init), g) + Added(rule, last), cutoff) ==
              Within(Since(rule, g, init) + Added(rule, last), cutoff) ==
              Within(Window(After(rule, map[], init), g) + Added(rule, last), cutoff)
    decreases |init|, 1
  {
    hide *;
    WindowIsHistory(rule, g, init, Now(last));
    WindowInTime(rule, g, init, Now(last));
    AddedNow(rule, last);
    SameLook(Window(After(rule, map[], init), g), Since(rule, g, init), Added(rule, last), Now(last),
             Now(last) - rule.timespan);
  }

  /** Incremental windows refine history: over any run in which time does not go
      backwards the engine fires at a step exactly what history fires. */
  lemma WindowsRefineHistory(rule: Rule, steps: seq<Step>)
    requires steps != [] && InTime(steps)
    ensures LastAlert(rule, map[], steps) == HistoryAlert(rule, steps)
  {
    hide *;
    var init, last := steps[..|steps| - 1], steps[|steps| - 1];
    InTimeBefore(steps);
    SameView(rule, GroupKey(rule, last.event), init, last);
    LastIsHistory(rule, steps);
  }

  /** Looking at the same entries, the engine and history fire the same. */
  lemma LastIsHistory(rule: Rule, steps: seq<Step>)
    requires steps != []
    requires var init, last := steps[..|steps| - 1], steps[|steps| - 1];
             var g, cutoff := GroupKey(rule, last.event), Now(last) - rule.timespan;
             Trim(Window(After(rule, map[], init), g) + Added(rule, last), cutoff) ==
               Within(Since(rule, g, init) + Added(rule, last), cutoff)
    ensures LastAlert(rule, map[], steps) == HistoryAlert(rule, steps)
  {
    hide Holds, Added, AlertOf, GroupKey, Trim, Within, Since, Window, After, Matched, Now;
    StepAtGroup(rule, After(rule, map[], steps[..|steps| - 1]), steps[|steps| - 1],
                GroupKey(rule, steps[|steps| - 1].event));
  }

  lemma EndsWithAdded(rule: Rule, earlier: seq<Entry>, last: Step)
    requires Added(rule, last) != [] && rule.timespan >= 0
    ensures var w := Within(earlier + Added(rule, last), Now(last) - rule.timespan);
            w != [] && Ids(w)[|w| - 1] == last.event.id
  {
    var cutoff := Now(last) - rule.timespan;
    var added := Added(rule, last);
    AddedNow(rule, last);
    assert added[|added| - 1].eventId == last.event.id;
    hide Added, Within;
    WithinJoin(earlier, added, cutoff);
    WithinAll(added, cutoff);
  }

  /** An event without a time happens now. */
  lemma NowIs(step: Step)
    ensures step.event.ts != 0 ==> Now(step) == step.event.ts
    ensures step.event.ts == 0 ==> Now(step) == step.clock
  {
  }

  /** A rule with a time span fires only on a match of the present event, and its
      alert speaks for the rule and ends with that event. */
  lemma AlertNamesItsEvent(rule: Rule, steps: seq<Step>)
    requires steps != [] && InTime(steps) && rule.timespan >= 0 && LastAlert(rule, map[], steps).Some?
    ensures var alert := LastAlert(rule, map[], steps).value;
            && alert.events != [] && alert.events[|alert.events| - 1] == steps[|steps| - 1].event.id
            && Matched(rule, steps[|steps| - 1].alerts) != []
            && (steps[|steps| - 1].event.ts != 0 ==> alert.ts == steps[|steps| - 1].event.ts)
            && (steps[|steps| - 1].event.ts == 0 ==> alert.ts == steps[|steps| - 1].clock)
            && alert.ruleId == rule.ruleId && alert.title == rule.title && alert.severity == rule.severity
            && alert.technique == rule.technique
  {
    hide LastAlert, Since, Holds, GroupKey, Matched, Within, InTime, Now, EntryOf;
    WindowsRefineHistory(rule, steps);
    var last := steps[|steps| - 1];
    assert Added(rule, last) != [];
    NowIs(last);
    EndsWithAdded(rule, Since(rule, GroupKey(rule, last.event), steps[..|steps| - 1]), last);
  }

  // --- groups do not see each other ------------------------------------------------------------------

  /** The steps whose event has the group key. */
  function OnlyGroup(rule: Rule, g: string, steps: seq<Step>): seq<Step> {
    if steps == [] then []
    else
      OnlyGroup(rule, g, steps[..|steps| - 1]) +
      (if GroupKey(rule, steps[|steps| - 1].event) == g then [steps[|steps| - 1]] else [])
  }

  /** All alerts a rule fires over a run. */
  ghost function Alerts(rule: Rule, ws: Windows, steps: seq<Step>): seq<Alert> {
    if steps == [] then []
    else
      Alerts(rule, ws, steps[..|steps| - 1]) +
      (match LastAlert(rule, ws, steps) case None => [] case Some(a) => [a])
  }

  /** The alerts fired for one group. */
  ghost function GroupAlerts(rule: Rule, g: string, ws: Windows, steps: seq<Step>): seq<Alert> {
    if steps == [] then []
    else
      GroupAlerts(rule, g, ws, steps[..|steps| - 1]) +
      (if GroupKey(rule, steps[|steps| - 1].event) != g then []
       else match LastAlert(rule, ws, steps) case None => [] case Some(a) => [a])
  }

  lemma SameWindowSameStep(rule: Rule, a: Windows, b: Windows, step: Step, g: string)
    requires Window(a, g) == Window(b, g)
    ensures Window(RuleStep(rule, a, step).0, g) == Window(RuleStep(rule, b, step).0, g)
    ensures GroupKey(rule, step.event) == g ==> RuleStep(rule, a, step).1 == RuleStep(rule, b, step).1
  {
    StepAtGroup(rule, a, step, g);
    StepAtGroup(rule, b, step, g);
    hide Holds, Added, AlertOf, Trim, GroupKey;
  }

  /** A rule's alerts for a group are those from feeding only that group's events. */
  lemma {:induction false} GroupsAreIsolated(rule: Rule, g: string, ws: Windows, steps: seq<Step>)
    ensures Window(After(rule, ws, steps), g) == Window(After(rule, ws, OnlyGroup(rule, g, steps)), g)
    ensures GroupAlerts(rule, g, ws, steps) == Alerts(rule, ws, OnlyGroup(rule, g, steps))
  {
    if steps != [] {
      var init, last := steps[..|steps| - 1], steps[|steps| - 1];
      GroupsAreIsolated(rule, g, ws, init);
      StepAtGroup(rule, After(rule, ws, init), last, g);
      var only := OnlyGroup(rule, g, init);
      hide RuleStep;
      if GroupKey(rule, last.event) == g {
        assert (only + [last])[..|only|] == only;
        SameWindowSameStep(rule, After(rule, ws, init), After(rule, ws, only), last, g);
        hide GroupKey;
        assert OnlyGroup(rule, g, steps) == only + [last];
      } else {
        hide GroupKey;
        assert OnlyGroup(rule, g, steps) == only;
      }
    }
  }
}
