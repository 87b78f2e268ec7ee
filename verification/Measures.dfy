/** What a window of samples is measured by: the 95th percentile, the error rate and the availability. */
module Measures {
  import opened Sorting

  datatype Sample = Sample(timestamp: int, duration: real, status: int)

  datatype Metric = LatencyP95 | ErrorRate | Availability

  datatype Comparator = Above | Below

  /** A condition that could be parsed, with the threshold it names. */
  datatype Condition = Condition(metric: Metric, comparator: Comparator, threshold: real)

  datatype Metrics = Metrics(p95: real, errorRate: real, availability: real)

  function MetricValue(metric: Metric, m: Metrics): real {
    match metric case LatencyP95 => m.p95 case ErrorRate => m.errorRate case Availability => m.availability
  }

  predicate Meets(c: Condition, m: Metrics) {
    if c.comparator.Above? then MetricValue(c.metric, m) > c.threshold else MetricValue(c.metric, m) < c.threshold
  }

  // ---------- Metrics ----------

  function Ascending(): (real, real) -> bool {
    (a: real, b: real) => a <= b
  }

  /** Nearest rank: position ceil(0.95 n) of the sorted values. */
  function P95(values: seq<real>): real {
    if values == [] then 0.0 else
    SortBy(values, Ascending())[(95 * |values| + 99) / 100 - 1]
  }

  function Durations(samples: seq<Sample>): (r: seq<real>)
    ensures |r| == |samples|
  {
    if samples == [] then [] else Durations(samples[..|samples| - 1]) + [samples[|samples| - 1].duration]
  }

  function Errors(samples: seq<Sample>): (r: nat)
    ensures r <= |samples|
  {
    if samples == [] then 0 else
    Errors(samples[..|samples| - 1]) + (if samples[|samples| - 1].status >= 500 then 1 else 0)
  }

  function MetricsOf(samples: seq<Sample>): Metrics {
    if samples == [] then Metrics(0.0, 0.0, 1.0) else
    Metrics(
      P95(Durations(samples)),
      Errors(samples) as real / |samples| as real,
      (|samples| - Errors(samples)) as real / |samples| as real)
  }

  /** Values at most v, or below v. */
  function CountUpTo(values: seq<real>, v: real, strict: bool): nat {
    if values == [] then 0
    else (if values[0] < v || (!strict && values[0] == v) then 1 else 0) + CountUpTo(values[1..], v, strict)
  }

  lemma {:induction false} CountOfInserted(x: real, s: seq<real>, v: real, strict: bool)
    ensures CountUpTo(Insert(x, s, Ascending()), v, strict) == CountUpTo([x] + s, v, strict)
  {
    if s == [] || x <= s[0] {
    } else {
      CountOfInserted(x, s[1..], v, strict);
      var rest := Insert(x, s[1..], Ascending());
      assert ([s[0]] + rest)[1..] == rest;
      assert ([x] + s)[1..] == s && ([x] + s[1..])[1..] == s[1..];
    }
  }

  lemma {:induction false} CountOfSorted(s: seq<real>, v: real, strict: bool)
    ensures CountUpTo(SortBy(s, Ascending()), v, strict) == CountUpTo(s, v, strict)
  {
    if s != [] {
      CountOfSorted(s[1..], v, strict);
      var rest := SortBy(s[1..], Ascending());
      CountOfInserted(s[0], rest, v, strict);
      assert ([s[0]] + rest)[1..] == rest;
    }
  }

  lemma {:induction false} CountInSorted(s: seq<real>, i: nat, strict: bool)
    requires i < |s| && SortedBy(s, Ascending())
    ensures CountUpTo(s, s[i], false) >= i + 1
    ensures CountUpTo(s, s[i], true) <= i
  {
    var rest := s[1..];
    assert forall a | 0 <= a < |rest| :: rest[a] == s[a + 1];
    assert SortedBy(rest, Ascending()) by {
      forall a, b | 0 <= a < b < |rest| ensures Ascending()(rest[a], rest[b]) {
        assert Ascending()(s[a + 1], s[b + 1]);
      }
    }
    assert forall a | 0 <= a < i :: Ascending()(s[a], s[i]);
    if i == 0 {
      NoneBelowFirst(rest, s[0]) by {
        forall a | 0 <= a < |rest| ensures s[0] <= rest[a] {
          assert Ascending()(s[0], s[a + 1]);
        }
      }
    } else {
      CountInSorted(rest, i - 1, strict);
    }
  }

  lemma {:induction false} NoneBelowFirst(s: seq<real>, v: real)
    requires forall a | 0 <= a < |s| :: v <= s[a]
    ensures CountUpTo(s, v, true) == 0
  {
    if s != [] {
      NoneBelowFirst(s[1..], v);
    }
  }

  /** At least 95% of the values are at most p95, and fewer than 95% are below it. */
  lemma P95IsNearestRank(values: seq<real>)
    requires values != []
    ensures 95 * |values| <= 100 * CountUpTo(values, P95(values), false)
    ensures 100 * CountUpTo(values, P95(values), true) < 95 * |values|
    ensures P95(values) in values
  {
    var sorted := SortBy(values, Ascending());
    var at := (95 * |values| + 99) / 100 - 1;
    assert TotalPreorder(Ascending());
    SortBySorts(values, Ascending());
    CountInSorted(sorted, at, false);
    CountOfSorted(values, sorted[at], false);
    CountOfSorted(values, sorted[at], true);
    assert sorted[at] in multiset(sorted);
  }

  /** Availability and error rate always add up to one. */
  lemma RatesAddUp(samples: seq<Sample>)
    ensures var m := MetricsOf(samples);
            m.errorRate + m.availability == 1.0 && 0.0 <= m.errorRate <= 1.0
  {
    if samples != [] {
      SharesOfOne(Errors(samples) as real, |samples| as real);
    }
  }

  lemma SharesOfOne(e: real, n: real)
    requires 0.0 <= e <= n && 0.0 < n
    ensures e / n + (n - e) / n == 1.0 && 0.0 <= e / n <= 1.0
  {
    var a, b := e / n, (n - e) / n;
    assert a * n == e && b * n == n - e;
    SumIsOne(a, b, e, n);
    assert 0.0 <= a && 0.0 <= b;
  }

  lemma SumIsOne(a: real, b: real, e: real, n: real)
    requires a * n == e && b * n == n - e && 0.0 < n
    ensures a + b == 1.0
  {
    var x := a + b - 1.0;
    assert x * n == a * n + b * n - n;
  }

  // ---------- The metrics, counted over positions ----------

  /** Positions of the samples that failed. */
  function Failed(samples: seq<Sample>): set<nat> {
    set i: nat | i < |samples| && samples[i].status >= 500
  }

  function Served(samples: seq<Sample>): set<nat> {
    set i: nat | i < |samples| && samples[i].status < 500
  }

  /** Positions of the samples that took at most d. */
  function UpTo(samples: seq<Sample>, d: real): set<nat> {
    set i: nat | i < |samples| && samples[i].duration <= d
  }

  function Under(samples: seq<Sample>, d: real): set<nat> {
    set i: nat | i < |samples| && samples[i].duration < d
  }

  lemma {:induction false} ErrorsAreFailed(samples: seq<Sample>)
    ensures |Failed(samples)| == Errors(samples) && |Served(samples)| == |samples| - Errors(samples)
  {
    if samples != [] {
      var n := |samples| - 1;
      var init := samples[..n];
      ErrorsAreFailed(init);
      if samples[n].status >= 500 {
        assert Failed(samples) == Failed(init) + {n} && Served(samples) == Served(init);
      } else {
        assert Served(samples) == Served(init) + {n} && Failed(samples) == Failed(init);
      }
    }
  }

  lemma {:induction false} CountOfAppended(values: seq<real>, x: real, v: real, strict: bool)
    ensures CountUpTo(values + [x], v, strict)
         == CountUpTo(values, v, strict) + (if x < v || (!strict && x == v) then 1 else 0)
  {
    if values == [] {
      assert [] + [x] == [x] && [x][1..] == [];
    } else {
      assert (values + [x])[1..] == values[1..] + [x];
      CountOfAppended(values[1..], x, v, strict);
    }
  }

  lemma OneMorePosition(samples: seq<Sample>, d: real)
    requires samples != []
    ensures var n := |samples| - 1;
            && |UpTo(samples, d)| == |UpTo(samples[..n], d)| + (if samples[n].duration <= d then 1 else 0)
            && |Under(samples, d)| == |Under(samples[..n], d)| + (if samples[n].duration < d then 1 else 0)
  {
    var n := |samples| - 1;
    assert UpTo(samples, d) == UpTo(samples[..n], d) + (if samples[n].duration <= d then {n} else {});
    assert Under(samples, d) == Under(samples[..n], d) + (if samples[n].duration < d then {n} else {});
  }

  lemma {:induction false} CountsArePositions(samples: seq<Sample>, d: real)
    ensures |UpTo(samples, d)| == CountUpTo(Durations(samples), d, false)
    ensures |Under(samples, d)| == CountUpTo(Durations(samples), d, true)
  {
    hide UpTo, Under, CountUpTo;
    if samples == [] {
      NoPositions(d);
    } else {
      var n := |samples| - 1;
      var init, last := samples[..n], samples[n].duration;
      CountsArePositions(init, d);
      CountOfAppended(Durations(init), last, d, false);
      CountOfAppended(Durations(init), last, d, true);
      OneMorePosition(samples, d);
    }
  }

  lemma NoPositions(d: real)
    ensures |UpTo([], d)| == |Under([], d)| == CountUpTo([], d, false) == CountUpTo([], d, true) == 0
  {
  }

  lemma {:induction false} DurationsInOrder(samples: seq<Sample>)
    ensures forall i | 0 <= i < |samples| :: Durations(samples)[i] == samples[i].duration
  {
    if samples != [] {
      DurationsInOrder(samples[..|samples| - 1]);
    }
  }

  /**
   * The metrics are those of the samples: the error rate is the share of samples with a status of 500 or more, the
   * availability that of the others, and p95 is the duration of a sample that at least 95% of them do not exceed and
   * fewer than 95% stay under. Without samples nothing failed and everything is available.
   */
  ghost predicate Describes(m: Metrics, samples: seq<Sample>) {
    if samples == [] then m.p95 == 0.0 && m.errorRate == 0.0 && m.availability == 1.0 else
    && m.errorRate * |samples| as real == |Failed(samples)| as real
    && m.availability * |samples| as real == |Served(samples)| as real
    && (exists i | 0 <= i < |samples| :: samples[i].duration == m.p95)
    && 100 * |UpTo(samples, m.p95)| >= 95 * |samples|
    && 100 * |Under(samples, m.p95)| < 95 * |samples|
  }

  lemma MetricsMeasure(samples: seq<Sample>)
    ensures Describes(MetricsOf(samples), samples)
  {
    hide P95, Failed, Served, UpTo, Under, Errors, Durations;
    if samples != [] {
      var n := |samples| as real;
      ErrorsAreFailed(samples);
      Share(Errors(samples) as real, n);
      Share((|samples| - Errors(samples)) as real, n);
      P95OfSamples(samples);
    }
  }

  lemma P95OfSamples(samples: seq<Sample>)
    requires samples != []
    ensures var d := P95(Durations(samples));
            && (exists i | 0 <= i < |samples| :: samples[i].duration == d)
            && 100 * |UpTo(samples, d)| >= 95 * |samples|
            && 100 * |Under(samples, d)| < 95 * |samples|
  {
    hide P95, UpTo, Under, CountUpTo, Durations;
    var d := P95(Durations(samples));
    P95IsNearestRank(Durations(samples));
    CountsArePositions(samples, d);
    DurationsInOrder(samples);
    var i :| 0 <= i < |samples| && Durations(samples)[i] == d;
    assert samples[i].duration == d;
  }

  lemma Share(e: real, n: real)
    requires 0.0 < n
    ensures e / n * n == e
  {
  }

  // ---------- When a condition is met ----------

  lemma ShareAbove(e: real, n: real, rate: real, t: real)
    requires 0.0 < n && rate * n == e
    ensures rate > t <==> e > t * n
    ensures rate < t <==> e < t * n
  {
    assert (rate - t) * n == e - t * n;
    if rate > t {
      assert (rate - t) * n > 0.0;
    } else if rate < t {
      assert (t - rate) * n > 0.0;
    }
  }

  lemma MorePositions(samples: seq<Sample>, d: real, e: real)
    requires d <= e
    ensures |UpTo(samples, d)| <= |UpTo(samples, e)| && |Under(samples, d)| <= |Under(samples, e)|
    ensures d < e ==> |UpTo(samples, d)| <= |Under(samples, e)|
  {
    Larger(UpTo(samples, d), UpTo(samples, e));
    Larger(Under(samples, d), Under(samples, e));
    if d < e {
      Larger(UpTo(samples, d), Under(samples, e));
    }
  }

  lemma {:induction false} Larger(a: set<nat>, b: set<nat>)
    requires a <= b
    ensures |a| <= |b|
    decreases |a|
  {
    if x :| x in a {
      Larger(a - {x}, b - {x});
    }
  }

  /** What a condition says about the samples themselves, in numbers of positions. */
  ghost predicate SaysOf(c: Condition, samples: seq<Sample>) {
    var n, t := |samples| as real, c.threshold;
    match c
    case Condition(ErrorRate, Above, _) =>
      |Failed(samples)| as real > t * n
    case Condition(ErrorRate, Below, _) =>
      |Failed(samples)| as real < t * n
    case Condition(Availability, Above, _) =>
      |Served(samples)| as real > t * n
    case Condition(Availability, Below, _) =>
      |Served(samples)| as real < t * n
    case Condition(LatencyP95, Above, _) =>
      100 * |UpTo(samples, t)| < 95 * |samples|
    case Condition(LatencyP95, Below, _) =>
      100 * |Under(samples, t)| >= 95 * |samples|
  }

  lemma LatencyAbove(samples: seq<Sample>, t: real)
    requires samples != []
    ensures MetricsOf(samples).p95 > t <==> 100 * |UpTo(samples, t)| < 95 * |samples|
    ensures MetricsOf(samples).p95 < t <==> 100 * |Under(samples, t)| >= 95 * |samples|
  {
    hide P95, UpTo, Under, Durations, Errors;
    var d := P95(Durations(samples));
    P95OfSamples(samples);
    if d <= t {
      MorePositions(samples, d, t);
    } else {
      MorePositions(samples, t, d);
    }
  }

  lemma RatesAgainst(samples: seq<Sample>, t: real)
    requires samples != []
    ensures var m, n := MetricsOf(samples), |samples| as real;
            && (m.errorRate > t <==> |Failed(samples)| as real > t * n)
            && (m.errorRate < t <==> |Failed(samples)| as real < t * n)
            && (m.availability > t <==> |Served(samples)| as real > t * n)
            && (m.availability < t <==> |Served(samples)| as real < t * n)
  {
    hide P95, Failed, Served, Errors, Durations;
    var m, n := MetricsOf(samples), |samples| as real;
    ErrorsAreFailed(samples);
    Share(Errors(samples) as real, n);
    Share((|samples| - Errors(samples)) as real, n);
    ShareAbove(|Failed(samples)| as real, n, m.errorRate, t);
    ShareAbove(|Served(samples)| as real, n, m.availability, t);
  }

  /** On a window with samples, a condition on the metrics is a statement about how many samples are good or bad. */
  lemma ConditionCountsSamples(c: Condition, samples: seq<Sample>)
    requires samples != []
    ensures Meets(c, MetricsOf(samples)) <==> SaysOf(c, samples)
  {
    hide MetricsOf, Failed, Served, UpTo, Under;
    RatesAgainst(samples, c.threshold);
    LatencyAbove(samples, c.threshold);
  }
}
