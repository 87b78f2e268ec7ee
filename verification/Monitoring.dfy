/** SLO monitoring: a sliding window of samples, its metrics, and the alert rules evaluated over it. */
module Monitoring {
  import opened Wrappers
  import opened Measures

  /** An unparsed rule keeps its window but has no condition. */
  datatype Rule = Rule(id: string, condition: Option<Condition>, windowMs: int)

  /** One objective: the window length, the rules attached to it, and how its samples are measured. */
  datatype Config = Config(windowMs: int, rules: seq<Rule>, measure: seq<Sample> -> Metrics)

  // ---------- The window ----------

  /** The samples not older than the cutoff, in order. */
  function Recent(samples: seq<Sample>, cutoff: int): seq<Sample> {
    if samples == [] then [] else
    var last := samples[|samples| - 1];
    var earlier := Recent(samples[..|samples| - 1], cutoff);
    if cutoff <= last.timestamp then earlier + [last] else earlier
  }

  lemma RecentOfAppended(samples: seq<Sample>, s: Sample, cutoff: int)
    ensures Recent(samples + [s], cutoff) == Recent(samples, cutoff) + (if cutoff <= s.timestamp then [s] else [])
  {
    assert (samples + [s])[..|samples|] == samples;
  }

  /** Pruning keeps exactly the samples at or past the cutoff, as often as they occur. */
  lemma {:induction false} RecentKeeps(samples: seq<Sample>, cutoff: int, s: Sample)
    ensures multiset(Recent(samples, cutoff))[s] == if cutoff <= s.timestamp then multiset(samples)[s] else 0
  {
    if samples != [] {
      var n := |samples| - 1;
      RecentKeeps(samples[..n], cutoff, s);
      assert samples == samples[..n] + [samples[n]];
    }
  }

  /** Pruning twice is pruning at the later cutoff. */
  lemma {:induction false} RecentOfRecent(samples: seq<Sample>, early: int, late: int)
    requires early <= late
    ensures Recent(Recent(samples, early), late) == Recent(samples, late)
  {
    if samples != [] {
      var init, last := samples[..|samples| - 1], samples[|samples| - 1];
      RecentOfRecent(init, early, late);
      RecentOfAppended(Recent(init, early), last, late);
    }
  }

  // ---------- The monitor as a step machine ----------

  /** breaches holds, per rule, when its current breach began. */
  datatype State = State(samples: seq<Sample>, breaches: map<string, int>)

  datatype Event = Recorded(sample: Sample) | Evaluated(at: int)

  function TimeOf(e: Event): int {
    match e case Recorded(s) => s.timestamp case Evaluated(at) => at
  }

  predicate ConditionMet(rule: Rule, m: Metrics) {
    rule.condition.Some? && Meets(rule.condition.value, m)
  }

  function EvaluateRule(rule: Rule, met: bool, breaches: map<string, int>, now: int): (map<string, int>, bool) {
    if met then
      var start := if rule.id in breaches then breaches[rule.id] else now;
      (breaches[rule.id := start], now - start >= rule.windowMs)
    else (breaches - {rule.id}, false)
  }

  function EvaluateRules(
      rules: seq<Rule>, m: Metrics, breaches: map<string, int>, now: int): (r: (map<string, int>, seq<bool>))
    ensures |r.1| == |rules|
  {
    if rules == [] then (breaches, []) else
    var n := |rules| - 1;
    var (earlier, flags) := EvaluateRules(rules[..n], m, breaches, now);
    var (after, active) := EvaluateRule(rules[n], ConditionMet(rules[n], m), earlier, now);
    (after, flags + [active])
  }

  function RecordStep(cfg: Config, st: State, s: Sample): State {
    st.(samples := Recent(st.samples + [s], s.timestamp - cfg.windowMs))
  }

  function EvaluateStep(cfg: Config, st: State, now: int): (r: (State, seq<bool>))
    ensures |r.1| == |cfg.rules|
  {
    var samples := Recent(st.samples, now - cfg.windowMs);
    var (breaches, flags) := EvaluateRules(cfg.rules, cfg.measure(samples), st.breaches, now);
    (State(samples, breaches), flags)
  }

  function Step(cfg: Config, st: State, e: Event): State {
    match e case Recorded(s) => RecordStep(cfg, st, s) case Evaluated(at) => EvaluateStep(cfg, st, at).0
  }

  const START := State([], map[])

  function Run(cfg: Config, events: seq<Event>): State {
    if events == [] then START else Step(cfg, Run(cfg, events[..|events| - 1]), events[|events| - 1])
  }

  ghost predicate Monotone(events: seq<Event>) {
    forall i, j | 0 <= i < j < |events| :: TimeOf(events[i]) <= TimeOf(events[j])
  }

  lemma MonotonePrefix(events: seq<Event>, e: Event)
    requires Monotone(events + [e])
    ensures Monotone(events) && forall i | 0 <= i < |events| :: TimeOf(events[i]) <= TimeOf(e)
  {
    var full := events + [e];
    assert forall i | 0 <= i < |events| :: full[i] == events[i];
    assert full[|events|] == e;
  }

  // ---------- The window against the full history ----------

  /** Everything ever recorded. */
  function History(events: seq<Event>): seq<Sample> {
    if events == [] then [] else
    var earlier := History(events[..|events| - 1]);
    match events[|events| - 1] case Recorded(s) => earlier + [s] case Evaluated(_) => earlier
  }

  lemma EvaluationPrunes(cfg: Config, st: State, now: int)
    ensures EvaluateStep(cfg, st, now).0.samples == Recent(st.samples, now - cfg.windowMs)
  {
  }

  /** With a clock that does not run backwards, the pruned window loses nothing a later cutoff would keep. */
  lemma {:induction false} WindowIsRecentHistory(cfg: Config, events: seq<Event>, cutoff: int)
    requires Monotone(events)
    requires forall i | 0 <= i < |events| :: TimeOf(events[i]) - cfg.windowMs <= cutoff
    ensures Recent(Run(cfg, events).samples, cutoff) == Recent(History(events), cutoff)
  {
    hide EvaluateStep, EvaluateRules, MetricsOf;
    if events != [] {
      var init, last := events[..|events| - 1], events[|events| - 1];
      WindowIsRecentHistory(cfg, init, cutoff);
      var before := Run(cfg, init);
      match last
      case Recorded(s) =>
        RecentOfRecent(before.samples + [s], s.timestamp - cfg.windowMs, cutoff);
        RecentOfAppended(before.samples, s, cutoff);
        RecentOfAppended(History(init), s, cutoff);
      case Evaluated(at) =>
        EvaluationPrunes(cfg, before, at);
        RecentOfRecent(before.samples, at - cfg.windowMs, cutoff);
    }
  }

  /** The window an evaluation prunes to is exactly the full history not older than the window. */
  lemma EvaluationSeesRecentHistory(cfg: Config, events: seq<Event>, now: int)
    requires Monotone(events + [Evaluated(now)])
    ensures Recent(Run(cfg, events).samples, now - cfg.windowMs) == Recent(History(events), now - cfg.windowMs)
  {
    MonotonePrefix(events, Evaluated(now));
    WindowIsRecentHistory(cfg, events, now - cfg.windowMs);
  }

  // ---------- One rule, over its evaluations ----------

  /** One evaluation of a rule: when, and whether its condition was met. */
  datatype Evaluation = Evaluation(at: int, met: bool)

  /** When the current breach began. */
  function BreachStart(log: seq<Evaluation>): Option<int> {
    if log == [] then None else
    var last := log[|log| - 1];
    if !last.met then None else
    var earlier := BreachStart(log[..|log| - 1]);
    if earlier.Some? then earlier else Some(last.at)
  }

  ghost predicate MetSince(log: seq<Evaluation>, j: int) {
    forall k | 0 <= j <= k < |log| :: log[k].met
  }

  /** The condition was met at every evaluation from one at least windowMs before the last up to the last. */
  ghost predicate HeldLongEnough(log: seq<Evaluation>, windowMs: int)
    requires log != []
  {
    exists j | 0 <= j < |log| :: log[|log| - 1].at - log[j].at >= windowMs && MetSince(log, j)
  }

  ghost predicate InOrder(log: seq<Evaluation>) {
    forall i, j | 0 <= i < j < |log| :: log[i].at <= log[j].at
  }

  lemma {:induction false} BreachStartIsFirstOfStreak(log: seq<Evaluation>) returns (j: int)
    ensures match BreachStart(log)
            case None => forall i | 0 <= i < |log| :: !MetSince(log, i)
            case Some(start) =>
              0 <= j < |log| && start == log[j].at && MetSince(log, j) && forall i | 0 <= i < j :: !MetSince(log, i)
  {
    j := 0;
    if log != [] {
      var n := |log| - 1;
      var init := log[..n];
      var before := BreachStartIsFirstOfStreak(init);
      forall i | 0 <= i <= n ensures MetSince(log, i) <==> MetSince(init, i) && log[n].met {
        assert forall k | i <= k < n :: log[k] == init[k];
        if MetSince(log, i) {
          assert log[n].met;
          assert forall k | i <= k < n :: init[k].met;
        }
      }
      assert MetSince(init, n);
      j := if BreachStart(init).Some? then before else n;
    }
  }

  lemma BreachIsOldIff(log: seq<Evaluation>, windowMs: int)
    requires log != [] && InOrder(log)
    ensures HeldLongEnough(log, windowMs)
            <==> BreachStart(log).Some? && log[|log| - 1].at - BreachStart(log).value >= windowMs
  {
    var start := BreachStartIsFirstOfStreak(log);
    if HeldLongEnough(log, windowMs) {
      var j :| 0 <= j < |log| && log[|log| - 1].at - log[j].at >= windowMs && MetSince(log, j);
      assert start <= j;
    }
  }

  // ---------- Alerts against the full history ----------

  /** The rule's condition over the full recent history at an evaluation after these events. */
  predicate Breached(cfg: Config, events: seq<Event>, rule: Rule, now: int) {
    ConditionMet(rule, cfg.measure(Recent(History(events), now - cfg.windowMs)))
  }

  /** For the metrics of the program: whether a rule is breached is a matter of counting the recent samples. */
  lemma BreachCountsSamples(cfg: Config, events: seq<Event>, rule: Rule, now: int)
    requires cfg.measure == MetricsOf && Recent(History(events), now - cfg.windowMs) != []
    ensures Breached(cfg, events, rule, now) <==>
              rule.condition.Some? && SaysOf(rule.condition.value, Recent(History(events), now - cfg.windowMs))
  {
    hide MetricsOf, SaysOf;
    if rule.condition.Some? {
      ConditionCountsSamples(rule.condition.value, Recent(History(events), now - cfg.windowMs));
    }
  }

  /** All evaluations of a rule, each judged on the history before it. */
  function LogOf(cfg: Config, events: seq<Event>, rule: Rule): seq<Evaluation> {
    if events == [] then [] else
    var init := events[..|events| - 1];
    match events[|events| - 1]
    case Recorded(_) => LogOf(cfg, init, rule)
    case Evaluated(at) => LogOf(cfg, init, rule) + [Evaluation(at, Breached(cfg, init, rule, at))]
  }

  ghost predicate DistinctIds(rules: seq<Rule>) {
    forall i, j | 0 <= i < j < |rules| :: rules[i].id != rules[j].id
  }

  /** One evaluation of all rules treats each rule on its own. */
  lemma {:induction false} RulesAreIndependent(
      rules: seq<Rule>, m: Metrics, breaches: map<string, int>, now: int, i: nat)
    requires DistinctIds(rules) && i < |rules|
    ensures var (after, flags) := EvaluateRules(rules, m, breaches, now);
            var (own, active) := EvaluateRule(rules[i], ConditionMet(rules[i], m), breaches, now);
            var id := rules[i].id;
            && flags[i] == active
            && (id in after <==> id in own) && (id in after ==> after[id] == own[id])
  {
    var n := |rules| - 1;
    assert DistinctIds(rules[..n]);
    if i < n {
      RulesAreIndependent(rules[..n], m, breaches, now, i);
      assert rules[i].id != rules[n].id;
    } else {
      OtherRulesUntouched(rules[..n], m, breaches, now, rules[n].id);
    }
  }

  lemma {:induction false} OtherRulesUntouched(
      rules: seq<Rule>, m: Metrics, breaches: map<string, int>, now: int, id: string)
    requires forall i | 0 <= i < |rules| :: rules[i].id != id
    ensures var after := EvaluateRules(rules, m, breaches, now).0;
            (id in after <==> id in breaches) && (id in after ==> after[id] == breaches[id])
  {
    if rules != [] {
      OtherRulesUntouched(rules[..|rules| - 1], m, breaches, now, id);
    }
  }

  /** The stored breach start of a rule. */
  function StartIn(breaches: map<string, int>, id: string): Option<int> {
    if id in breaches then Some(breaches[id]) else None
  }

  /** On one rule: the stored start follows BreachStart, and the flag reads its age. */
  lemma RuleFollowsLog(rule: Rule, met: bool, breaches: map<string, int>, now: int, log: seq<Evaluation>)
    requires StartIn(breaches, rule.id) == BreachStart(log)
    ensures var (own, active) := EvaluateRule(rule, met, breaches, now);
            var longer := log + [Evaluation(now, met)];
            && StartIn(own, rule.id) == BreachStart(longer)
            && (active <==> BreachStart(longer).Some? && now - BreachStart(longer).value >= rule.windowMs)
  {
    assert (log + [Evaluation(now, met)])[..|log|] == log;
  }

  /** All rules are judged on the metrics of the full recent history. */
  lemma MetricsAreOfHistory(cfg: Config, events: seq<Event>, now: int)
    requires Monotone(events + [Evaluated(now)])
    ensures cfg.measure(Recent(Run(cfg, events).samples, now - cfg.windowMs))
        == cfg.measure(Recent(History(events), now - cfg.windowMs))
  {
    EvaluationSeesRecentHistory(cfg, events, now);
  }

  /** One evaluation step, seen by rule i. */
  lemma EvaluationFollowsLog(cfg: Config, events: seq<Event>, i: nat, now: int, log: seq<Evaluation>)
    requires Monotone(events + [Evaluated(now)]) && DistinctIds(cfg.rules) && i < |cfg.rules|
    requires StartIn(Run(cfg, events).breaches, cfg.rules[i].id) == BreachStart(log)
    ensures var (after, flags) := EvaluateStep(cfg, Run(cfg, events), now);
            var longer := log + [Evaluation(now, Breached(cfg, events, cfg.rules[i], now))];
            && StartIn(after.breaches, cfg.rules[i].id) == BreachStart(longer)
            && (flags[i] <==> BreachStart(longer).Some? && now - BreachStart(longer).value >= cfg.rules[i].windowMs)
  {
    var m := cfg.measure(Recent(History(events), now - cfg.windowMs));
    var breaches := Run(cfg, events).breaches;
    MetricsAreOfHistory(cfg, events, now);
    RulesAreIndependent(cfg.rules, m, breaches, now, i);
    RuleFollowsLog(cfg.rules[i], ConditionMet(cfg.rules[i], m), breaches, now, log);
  }

  /** Alert state refines history, whatever other rules did in between. */
  lemma {:induction false} StateFollowsLog(cfg: Config, events: seq<Event>, i: nat)
    requires Monotone(events) && DistinctIds(cfg.rules) && i < |cfg.rules|
    ensures StartIn(Run(cfg, events).breaches, cfg.rules[i].id) == BreachStart(LogOf(cfg, events, cfg.rules[i]))
    decreases |events|
  {
    if events != [] {
      var n := |events| - 1;
      var init, last := events[..n], events[n];
      assert events == init + [last];
      MonotonePrefix(init, last);
      StateFollowsLog(cfg, init, i);
      if last.Evaluated? {
        EvaluationFollowsLog(cfg, init, i, last.at, LogOf(cfg, init, cfg.rules[i]));
      }
    }
  }

  lemma {:induction false} LogIsInOrder(cfg: Config, events: seq<Event>, rule: Rule, now: int)
    requires Monotone(events) && forall i | 0 <= i < |events| :: TimeOf(events[i]) <= now
    ensures var log := LogOf(cfg, events, rule);
            InOrder(log) && forall i | 0 <= i < |log| :: log[i].at <= now
    decreases |events|
  {
    if events != [] {
      var n := |events| - 1;
      LogIsInOrder(cfg, events[..n], rule, TimeOf(events[n]));
    }
  }

  /**
   * With a clock that does not run backwards, a rule is active at an evaluation exactly when its condition,
   * computed over the full history, held at every evaluation from one at least windowMs earlier up to now.
   */
  lemma ActiveIffHeldLongEnough(cfg: Config, events: seq<Event>, i: nat, now: int)
    requires Monotone(events + [Evaluated(now)]) && DistinctIds(cfg.rules) && i < |cfg.rules|
    ensures var log := LogOf(cfg, events, cfg.rules[i]) + [Evaluation(now, Breached(cfg, events, cfg.rules[i], now))];
            EvaluateStep(cfg, Run(cfg, events), now).1[i] <==> HeldLongEnough(log, cfg.rules[i].windowMs)
  {
    MonotonePrefix(events, Evaluated(now));
    StateFollowsLog(cfg, events, i);
    EvaluationFollowsLog(cfg, events, i, now, LogOf(cfg, events, cfg.rules[i]));
    LogIsInOrder(cfg, events, cfg.rules[i], now);
    BreachIsOldIff(LogOf(cfg, events, cfg.rules[i])
        + [Evaluation(now, Breached(cfg, events, cfg.rules[i], now))], cfg.rules[i].windowMs);
  }

  // ---------- The monitor as it runs ----------

  class SloMonitor {
    const cfg: Config
    var samples: seq<Sample>
    var alertStates: map<string, int>

    constructor (windowMs: int, rules: seq<Rule>)
      ensures cfg == Config(windowMs, rules, MetricsOf) && Abstract() == START
    {
      cfg := Config(windowMs, rules, MetricsOf);
      samples, alertStates := [], map[];
    }

    ghost function Abstract(): State
      reads this
    {
      State(samples, alertStates)
    }

    method PruneWindow(now: int)
      modifies this`samples
      ensures samples == Recent(old(samples), now - cfg.windowMs)
    {
      var kept: seq<Sample> := [];
      for i := 0 to |samples|
        invariant samples == old(samples)
        invariant kept == Recent(samples[..i], now - cfg.windowMs)
      {
        assert samples[..i + 1][..i] == samples[..i];
        if now - cfg.windowMs <= samples[i].timestamp {
          kept := kept + [samples[i]];
        }
      }
      assert samples[..|samples|] == samples;
      samples := kept;
    }

    method UpdateSloWindow(s: Sample)
      modifies this`samples
      ensures Abstract() == RecordStep(cfg, old(Abstract()), s)
    {
      samples := samples + [s];
      PruneWindow(s.timestamp);
    }

    method EvaluateAlertRule(rule: Rule, m: Metrics, now: int) returns (active: bool)
      modifies this`alertStates
      ensures (alertStates, active) == EvaluateRule(rule, ConditionMet(rule, m), old(alertStates), now)
    {
      if ConditionMet(rule, m) {
        var start := if rule.id in alertStates then alertStates[rule.id] else now;
        alertStates := alertStates[rule.id := start];
        return now - start >= rule.windowMs;
      }
      alertStates := alertStates - {rule.id};
      return false;
    }

    /** The reduce over the samples. */
    method Aggregate() returns (m: Metrics)
      ensures m == MetricsOf(samples)
    {
      var errors, durations := 0, [];
      for i := 0 to |samples|
        invariant errors == Errors(samples[..i]) && durations == Durations(samples[..i])
      {
        assert samples[..i + 1][..i] == samples[..i];
        if samples[i].status >= 500 {
          errors := errors + 1;
        }
        durations := durations + [samples[i].duration];
      }
      assert samples[..|samples|] == samples;
      var total := |samples|;
      m := if total == 0 then Metrics(0.0, 0.0, 1.0)
           else Metrics(P95(durations), errors as real / total as real, (total - errors) as real / total as real);
    }

    method EvaluateAllRules(m: Metrics, now: int) returns (flags: seq<bool>)
      modifies this`alertStates
      ensures (alertStates, flags) == EvaluateRules(cfg.rules, m, old(alertStates), now)
    {
      flags := [];
      for i := 0 to |cfg.rules|
        invariant (alertStates, flags) == EvaluateRules(cfg.rules[..i], m, old(alertStates), now)
      {
        assert cfg.rules[..i + 1][..i] == cfg.rules[..i];
        var active := EvaluateAlertRule(cfg.rules[i], m, now);
        flags := flags + [active];
      }
      assert cfg.rules[..|cfg.rules|] == cfg.rules;
    }

    method GetStatus(now: int) returns (m: Metrics, flags: seq<bool>)
      requires cfg.measure == MetricsOf
      modifies this
      ensures (Abstract(), flags) == EvaluateStep(cfg, old(Abstract()), now)
      ensures m == MetricsOf(samples) && Describes(m, samples)
    {
      hide Describes, MetricsOf, Recent;
      PruneWindow(now);
      m := Aggregate();
      MetricsMeasure(samples);
      flags := EvaluateAllRules(m, now);
    }
  }
}
