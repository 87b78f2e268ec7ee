/** The fixed-window rate limiter: one window per key, expired windows dropped on every check. */
module RateLimit {
  const LIMIT: nat := 60
  const WINDOW_MS: nat := 60 * 1000

  datatype Window = Window(count: nat, resetAt: int)

  datatype Answer = Answer(granted: bool, remaining: int, resetAt: int)

  type Windows = map<string, Window>

  function Cleaned(windows: Windows, now: int): Windows {
    map k | k in windows && now < windows[k].resetAt :: windows[k]
  }

  function CheckStep(windows: Windows, key: string, now: int): (Windows, Answer) {
    var live := Cleaned(windows, now);
    if key !in live || live[key].resetAt < now then
      (live[key := Window(1, now + WINDOW_MS)], Answer(true, LIMIT - 1, now + WINDOW_MS))
    else if LIMIT <= live[key].count then
      (live, Answer(false, 0, live[key].resetAt))
    else
      var count := live[key].count + 1;
      (live[key := live[key].(count := count)], Answer(true, LIMIT - count, live[key].resetAt))
  }

  /** After a cleanup no window has run out, so the second test for that in a check never succeeds. */
  lemma SurvivorsAreOpen(windows: Windows, key: string, now: int)
    ensures key in Cleaned(windows, now) ==> !(Cleaned(windows, now)[key].resetAt < now)
  {
  }

  // ---------- Runs of the limiter ----------

  /** What reaches the limiter: checks, and cleanups by the timer. */
  datatype Event = Check(key: string, at: int) | Cleanup(at: int)

  ghost predicate Monotone(events: seq<Event>, since: int) {
    && (forall i | 0 <= i < |events| :: since <= events[i].at)
    && (forall i, j | 0 <= i < j < |events| :: events[i].at <= events[j].at)
  }

  /** The answers given to one key during a run. */
  function Answers(windows: Windows, events: seq<Event>, key: string): seq<Answer>
    decreases |events|
  {
    if events == [] then [] else
    match events[0]
    case Cleanup(at) => Answers(Cleaned(windows, at), events[1..], key)
    case Check(k, at) =>
      var (next, answer) := CheckStep(windows, k, at);
      (if k == key then [answer] else []) + Answers(next, events[1..], key)
  }

  /** The windows at the end of a run. */
  function WindowsAfter(windows: Windows, events: seq<Event>): Windows
    decreases |events|
  {
    if events == [] then windows else
    match events[0]
    case Cleanup(at) => WindowsAfter(Cleaned(windows, at), events[1..])
    case Check(k, at) => WindowsAfter(CheckStep(windows, k, at).0, events[1..])
  }

  /** One more event at the end of a run: a check of the key adds its answer, anything else adds none. */
  lemma {:induction false} OneMoreEvent(windows: Windows, events: seq<Event>, e: Event, key: string)
    ensures var before := WindowsAfter(windows, events);
            && WindowsAfter(windows, events + [e])
               == (match e case Cleanup(at) => Cleaned(before, at) case Check(k, at) => CheckStep(before, k, at).0)
            && Answers(windows, events + [e], key)
               == Answers(windows, events, key)
                  + (if e.Check? && e.key == key then [CheckStep(before, key, e.at).1] else [])
    decreases |events|
  {
    hide Cleaned, CheckStep;
    var all := events + [e];
    if events == [] {
      assert all[1..] == [];
    } else {
      assert all[1..] == events[1..] + [e];
      match events[0]
      case Cleanup(at) => OneMoreEvent(Cleaned(windows, at), events[1..], e, key);
      case Check(k, at) => OneMoreEvent(CheckStep(windows, k, at).0, events[1..], e, key);
    }
  }

  /** The times at which one key is checked. */
  function ChecksOf(events: seq<Event>, key: string): seq<int> {
    if events == [] then []
    else (if events[0].Check? && events[0].key == key then [events[0].at] else []) + ChecksOf(events[1..], key)
  }

  // ---------- The reference: one key on its own, nothing ever forgotten ----------

  datatype KeyState = Idle | Open(start: int, used: nat)

  predicate Expired(st: KeyState, now: int) {
    st.Idle? || st.start + WINDOW_MS <= now
  }

  function RefCheck(st: KeyState, now: int): (KeyState, Answer) {
    if Expired(st, now) then (Open(now, 1), Answer(true, LIMIT - 1, now + WINDOW_MS))
    else if LIMIT <= st.used then (st, Answer(false, 0, st.start + WINDOW_MS))
    else (Open(st.start, st.used + 1), Answer(true, LIMIT - (st.used + 1), st.start + WINDOW_MS))
  }

  function RefAnswers(st: KeyState, times: seq<int>): seq<Answer>
    decreases |times|
  {
    if times == [] then [] else
    var (next, answer) := RefCheck(st, times[0]);
    [answer] + RefAnswers(next, times[1..])
  }

  function StateOf(windows: Windows, key: string): KeyState {
    if key in windows then Open(windows[key].resetAt - WINDOW_MS, windows[key].count) else Idle
  }

  /** Equal, or both spent by now. */
  predicate Alike(a: KeyState, b: KeyState, now: int) {
    a == b || (Expired(a, now) && Expired(b, now))
  }

  lemma {:induction false} RunFollowsReference(
      windows: Windows, st: KeyState, events: seq<Event>, key: string, since: int)
    requires Monotone(events, since) && Alike(StateOf(windows, key), st, since)
    ensures Answers(windows, events, key) == RefAnswers(st, ChecksOf(events, key))
    decreases |events|
  {
    if events != [] {
      var at, rest := events[0].at, events[1..];
      assert Monotone(rest, at) by {
        assert forall i | 0 <= i < |rest| :: rest[i] == events[i + 1];
      }
      match events[0]
      case Cleanup(_) =>
        RunFollowsReference(Cleaned(windows, at), st, rest, key, at);
        assert ChecksOf(events, key) == ChecksOf(rest, key);
      case Check(k, _) =>
        var next := CheckStep(windows, k, at).0;
        if k == key {
          var (ref, answer) := RefCheck(st, at);
          RunFollowsReference(next, ref, rest, key, at);
          assert ChecksOf(events, key) == [at] + ChecksOf(rest, key);
        } else {
          RunFollowsReference(next, st, rest, key, at);
          assert ChecksOf(events, key) == ChecksOf(rest, key);
        }
    }
  }

  /** A key's answers depend only on the times of its own checks: neither other keys nor any cleanup can change them. */
  lemma AnswersDependOnOwnChecksOnly(events: seq<Event>, key: string, since: int)
    requires Monotone(events, since)
    ensures Answers(map[], events, key) == RefAnswers(Idle, ChecksOf(events, key))
  {
    RunFollowsReference(map[], Idle, events, key, since);
  }

  /** Cleanups inserted anywhere, or left out, change no answer. */
  lemma CleanupChangesNoAnswer(one: seq<Event>, two: seq<Event>, key: string, since: int)
    requires Monotone(one, since) && Monotone(two, since)
    requires WithoutCleanup(one) == WithoutCleanup(two)
    ensures Answers(map[], one, key) == Answers(map[], two, key)
  {
    AnswersDependOnOwnChecksOnly(one, key, since);
    AnswersDependOnOwnChecksOnly(two, key, since);
    ChecksSurviveFiltering(one, key);
    ChecksSurviveFiltering(two, key);
  }

  function WithoutCleanup(events: seq<Event>): seq<Event> {
    if events == [] then []
    else (if events[0].Check? then [events[0]] else []) + WithoutCleanup(events[1..])
  }

  lemma {:induction false} ChecksSurviveFiltering(events: seq<Event>, key: string)
    ensures ChecksOf(WithoutCleanup(events), key) == ChecksOf(events, key)
  {
    if events != [] {
      ChecksSurviveFiltering(events[1..], key);
      if events[0].Check? {
        assert WithoutCleanup(events)[1..] == WithoutCleanup(events[1..]);
      } else {
        assert WithoutCleanup(events) == WithoutCleanup(events[1..]);
      }
    }
  }

  // ---------- How many checks are granted ----------

  ghost predicate NonDecreasing(times: seq<int>) {
    forall i, j | 0 <= i < j < |times| :: times[i] <= times[j]
  }

  predicate InInterval(at: int, from: int) {
    from <= at < from + 60000
  }

  /** Granted answers among those given at times within one minute from a moment on. */
  function GrantedIn(times: seq<int>, answers: seq<Answer>, from: int): nat
    requires |times| == |answers|
  {
    if times == [] then 0
    else (if answers[0].granted && InInterval(times[0], from) then 1 else 0) + GrantedIn(times[1..], answers[1..], from)
  }

  lemma {:induction false} AnswerPerCheck(st: KeyState, times: seq<int>)
    ensures |RefAnswers(st, times)| == |times|
    decreases |times|
  {
    if times != [] {
      AnswerPerCheck(RefCheck(st, times[0]).0, times[1..]);
    }
  }

  /** What a key can still be granted in that minute from a given state. */
  function Allowance(st: KeyState, from: int): nat {
    if st.Idle? || st.start + WINDOW_MS <= from then 2 * LIMIT - 1
    else if st.start < from then if st.used <= LIMIT then 2 * LIMIT - st.used else LIMIT
    else if st.start < from + WINDOW_MS then if st.used <= LIMIT then LIMIT - st.used else 0
    else 0
  }

  lemma {:induction false} GrantedWithinAllowance(st: KeyState, times: seq<int>, from: int)
    requires NonDecreasing(times)
    requires st.Open? ==> 1 <= st.used && forall i | 0 <= i < |times| :: st.start <= times[i]
    ensures |RefAnswers(st, times)| == |times|
    ensures GrantedIn(times, RefAnswers(st, times), from) <= Allowance(st, from)
    decreases |times|
  {
    AnswerPerCheck(st, times);
    if times != [] {
      var rest := times[1..];
      var next := RefCheck(st, times[0]).0;
      assert forall i | 0 <= i < |rest| :: rest[i] == times[i + 1];
      GrantedWithinAllowance(next, rest, from);
      assert RefAnswers(st, times)[1..] == RefAnswers(next, rest);
    }
  }

  /**
   * No half-open interval of one window's length sees more than 119 granted checks of a key: a window opens
   * with a granted check, so of two windows that meet the interval at least one grant lies outside it.
   */
  lemma AtMost119PerInterval(events: seq<Event>, key: string, since: int, from: int)
    requires Monotone(events, since)
    ensures |Answers(map[], events, key)| == |ChecksOf(events, key)|
    ensures GrantedIn(ChecksOf(events, key), Answers(map[], events, key), from) <= 119
  {
    AnswersDependOnOwnChecksOnly(events, key, since);
    ChecksAreMonotone(events, key, since);
    GrantedWithinAllowance(Idle, ChecksOf(events, key), from);
  }

  lemma {:induction false} ChecksAreMonotone(events: seq<Event>, key: string, since: int)
    requires Monotone(events, since)
    ensures NonDecreasing(ChecksOf(events, key))
    ensures forall i | 0 <= i < |ChecksOf(events, key)| :: since <= ChecksOf(events, key)[i]
    decreases |events|
  {
    if events != [] {
      var rest := events[1..];
      assert forall i | 0 <= i < |rest| :: rest[i] == events[i + 1];
      ChecksAreMonotone(rest, key, events[0].at);
    }
  }

  // ---------- One window ----------

  /** Checks made before the window of st ends. */
  function Inside(st: KeyState, times: seq<int>): nat
    requires st.Open?
  {
    if times == [] || st.start + 60000 <= times[0] then 0 else 1 + Inside(st, times[1..])
  }

  function GrantedFirst(answers: seq<Answer>, n: nat): nat
    requires n <= |answers|
  {
    if n == 0 then 0 else (if answers[0].granted then 1 else 0) + GrantedFirst(answers[1..], n - 1)
  }

  /** In a window exactly the first 60 checks are granted. */
  lemma {:induction false} WindowGrantsUpToLimit(st: KeyState, times: seq<int>)
    requires st.Open? && st.used <= 60
    ensures Inside(st, times) <= |RefAnswers(st, times)|
    ensures var inside := Inside(st, times);
            GrantedFirst(RefAnswers(st, times), inside) == if inside <= 60 - st.used then inside else 60 - st.used
    decreases |times|
  {
    AnswerPerCheck(st, times);
    if times != [] && times[0] < st.start + WINDOW_MS {
      var next := RefCheck(st, times[0]).0;
      WindowGrantsUpToLimit(next, times[1..]);
      assert RefAnswers(st, times)[1..] == RefAnswers(next, times[1..]);
      SameWindowSameChecks(st, next, times[1..]);
    }
  }

  /**
   * An answer can be relied on: of the checks made before its resetAt exactly as many are granted as it says remain,
   * and resetAt is when the window of the check ends.
   */
  lemma RemainingIsHonoured(st: KeyState, now: int, times: seq<int>)
    requires st.Open? ==> 1 <= st.used <= 60
    ensures var (next, answer) := RefCheck(st, now);
            && next.Open? && answer.resetAt == next.start + 60000
            && Inside(next, times) <= |RefAnswers(next, times)|
            && GrantedFirst(RefAnswers(next, times), Inside(next, times))
               == if Inside(next, times) <= answer.remaining then Inside(next, times) else answer.remaining
  {
    WindowGrantsUpToLimit(RefCheck(st, now).0, times);
  }

  lemma {:induction false} SameWindowSameChecks(a: KeyState, b: KeyState, times: seq<int>)
    requires a.Open? && b.Open? && a.start == b.start
    ensures Inside(a, times) == Inside(b, times)
  {
    if times != [] && times[0] < a.start + WINDOW_MS {
      SameWindowSameChecks(a, b, times[1..]);
    }
  }

  // ---------- The bound is reached ----------

  function Repeated(at: int, n: nat): seq<int> {
    if n == 0 then [] else [at] + Repeated(at, n - 1)
  }

  /** One granted check at the head of a list of times. */
  lemma OneGrant(start: int, used: nat, at: int, later: seq<int>, from: int)
    requires start <= at < start + WINDOW_MS && used < LIMIT && InInterval(at, from)
    ensures var times := [at] + later;
            && |RefAnswers(Open(start, used), times)| == |times|
            && |RefAnswers(Open(start, used + 1), later)| == |later|
            && GrantedIn(times, RefAnswers(Open(start, used), times), from)
               == 1 + GrantedIn(later, RefAnswers(Open(start, used + 1), later), from)
  {
    var times := [at] + later;
    AnswerPerCheck(Open(start, used), times);
    AnswerPerCheck(Open(start, used + 1), later);
    assert times[1..] == later;
    assert RefAnswers(Open(start, used), times)[1..] == RefAnswers(Open(start, used + 1), later);
  }

  lemma {:induction false} BurstIsGranted(start: int, used: nat, at: int, n: nat, later: seq<int>, from: int)
    requires start <= at < start + WINDOW_MS && used + n <= LIMIT && InInterval(at, from)
    ensures var times := Repeated(at, n) + later;
            && |RefAnswers(Open(start, used), times)| == |times|
            && |RefAnswers(Open(start, used + n), later)| == |later|
            && GrantedIn(times, RefAnswers(Open(start, used), times), from)
               == n + GrantedIn(later, RefAnswers(Open(start, used + n), later), from)
    decreases n
  {
    hide RefAnswers, GrantedIn;
    if n == 0 {
      AnswerPerCheck(Open(start, used), later);
      assert Repeated(at, n) + later == later;
    } else {
      BurstIsGranted(start, used + 1, at, n - 1, later, from);
      OneGrant(start, used, at, Repeated(at, n - 1) + later, from);
      assert Repeated(at, n) + later == [at] + (Repeated(at, n - 1) + later);
    }
  }

  /** One check at 0, early more at the end of its window, and a burst of 1 + late at the start of the next. */
  function TwoBursts(early: nat, late: nat): seq<int> {
    [0] + (Repeated(59999, early) + ([60000] + Repeated(60000, late)))
  }

  lemma {:induction false} RepeatedIsConstant(at: int, n: nat)
    ensures |Repeated(at, n)| == n && forall i | 0 <= i < n :: Repeated(at, n)[i] == at
  {
    if n != 0 {
      RepeatedIsConstant(at, n - 1);
    }
  }

  lemma SecondBurstIsGranted(used: nat, late: nat)
    requires 1 + late <= LIMIT
    ensures var times := [60000] + Repeated(60000, late);
            && |RefAnswers(Open(0, used), times)| == |times|
            && GrantedIn(times, RefAnswers(Open(0, used), times), 59999) == 1 + late
  {
    var tail := Repeated(60000, late);
    var times := [60000] + tail;
    AnswerPerCheck(Open(0, used), times);
    assert times[1..] == tail && tail + [] == tail;
    assert RefAnswers(Open(0, used), times)[1..] == RefAnswers(Open(60000, 1), tail);
    BurstIsGranted(60000, 1, 60000, late, [], 59999);
  }

  lemma TwoBurstsAreGranted(early: nat, late: nat)
    requires 1 + early <= LIMIT && 1 + late <= LIMIT
    ensures var times := TwoBursts(early, late);
            && NonDecreasing(times)
            && |RefAnswers(Idle, times)| == |times|
            && GrantedIn(times, RefAnswers(Idle, times), 59999) == early + 1 + late
  {
    RepeatedIsConstant(59999, early);
    RepeatedIsConstant(60000, late);
    var times, next := TwoBursts(early, late), [60000] + Repeated(60000, late);
    var rest := Repeated(59999, early) + next;
    AnswerPerCheck(Idle, times);
    assert times[1..] == rest;
    assert RefAnswers(Idle, times)[1..] == RefAnswers(Open(0, 1), rest);
    BurstIsGranted(0, 1, 59999, early, next, 59999);
    SecondBurstIsGranted(1 + early, late);
  }

  /** One check of the key at each of the given times. */
  function ChecksAt(key: string, times: seq<int>): seq<Event> {
    if times == [] then [] else [Check(key, times[0])] + ChecksAt(key, times[1..])
  }

  lemma {:induction false} ChecksAtAreChecks(key: string, times: seq<int>)
    ensures ChecksOf(ChecksAt(key, times), key) == times
    ensures |ChecksAt(key, times)| == |times|
    ensures forall i | 0 <= i < |times| :: ChecksAt(key, times)[i] == Check(key, times[i])
  {
    if times != [] {
      ChecksAtAreChecks(key, times[1..]);
      assert ChecksAt(key, times)[1..] == ChecksAt(key, times[1..]);
    }
  }

  /** With 59 and 59 checks around the end of its window, a key is granted 119 checks within [59999, 119999). */
  lemma BoundIsReached(key: string)
    ensures exists events ::
              && Monotone(events, 0)
              && |Answers(map[], events, key)| == |ChecksOf(events, key)|
              && GrantedIn(ChecksOf(events, key), Answers(map[], events, key), 59999) == 119
  {
    var burst: nat :| 1 + burst == LIMIT;
    var times := TwoBursts(burst, burst);
    var events := ChecksAt(key, times);
    TwoBurstsAreGranted(burst, burst);
    TwoBurstsStartAtZero(burst, burst);
    ChecksAtAreChecks(key, times);
    assert Monotone(events, 0);
    AnswersDependOnOwnChecksOnly(events, key, 0);
  }

  lemma TwoBurstsStartAtZero(early: nat, late: nat)
    ensures forall i | 0 <= i < |TwoBursts(early, late)| :: 0 <= TwoBursts(early, late)[i]
  {
    RepeatedIsConstant(59999, early);
    RepeatedIsConstant(60000, late);
  }

  // ---------- The limiter as it runs ----------

  /** log is everything that has reached the limiter. */
  class RateLimiter {
    var windows: Windows
    ghost var log: seq<Event>

    constructor ()
      ensures Valid() && log == []
    {
      windows := map[];
      log := [];
    }

    ghost predicate Valid()
      reads this
    {
      windows == WindowsAfter(map[], log)
    }

    method DropExpired(now: int)
      modifies this`windows
      ensures windows == Cleaned(old(windows), now)
    {
      var keys := windows.Keys;
      while keys != {}
        invariant keys <= windows.Keys <= old(windows).Keys
        invariant forall k | k in windows :: windows[k] == old(windows)[k]
        invariant forall k | k in old(windows) && k !in keys :: k in windows <==> now < old(windows)[k].resetAt
      {
        var key :| key in keys;
        if windows[key].resetAt <= now {
          windows := windows - {key};
        }
        keys := keys - {key};
      }
    }

    /** The timer's cleanup. */
    method CleanupExpired(now: int)
      requires Valid()
      modifies this
      ensures Valid() && log == old(log) + [Cleanup(now)]
      ensures windows == Cleaned(old(windows), now)
    {
      DropExpired(now);
      OneMoreEvent(map[], log, Cleanup(now), "");
      log := log + [Cleanup(now)];
    }

    /** The answers a key has had so far are those of the log; a check adds its answer to those of its own key. */
    method Check(key: string, now: int) returns (answer: Answer)
      requires Valid()
      modifies this
      ensures Valid() && log == old(log) + [Event.Check(key, now)]
      ensures forall k :: Answers(map[], log, k) == Answers(map[], old(log), k) + (if k == key then [answer] else [])
    {
      ghost var before := windows;
      DropExpired(now);
      if key !in windows || windows[key].resetAt < now {
        windows := windows[key := Window(1, now + WINDOW_MS)];
        answer := Answer(true, LIMIT - 1, now + WINDOW_MS);
      } else {
        var existing := windows[key];
        if LIMIT <= existing.count {
          answer := Answer(false, 0, existing.resetAt);
        } else {
          windows := windows[key := existing.(count := existing.count + 1)];
          answer := Answer(true, LIMIT - (existing.count + 1), existing.resetAt);
        }
      }
      assert (windows, answer) == CheckStep(before, key, now);
      AnswersGrow(log, key, now);
      log := log + [Event.Check(key, now)];
    }
  }

  lemma AnswersGrow(log: seq<Event>, key: string, now: int)
    ensures var (next, answer) := CheckStep(WindowsAfter(map[], log), key, now);
            var longer := log + [Check(key, now)];
            && WindowsAfter(map[], longer) == next
            && forall k :: Answers(map[], longer, k) == Answers(map[], log, k) + (if k == key then [answer] else [])
  {
    hide CheckStep;
    forall k ensures Answers(map[], log + [Check(key, now)], k)
      == Answers(map[], log, k) + (if k == key then [CheckStep(WindowsAfter(map[], log), key, now).1] else [])
    {
      OneMoreEvent(map[], log, Check(key, now), k);
    }
    OneMoreEvent(map[], log, Check(key, now), key);
  }
}
