/** The fixed-window rate limiter as a plain map of windows that is filtered by expiry:
    what FixedWindowRateLimiter (apps/server/src/control.ts) has to agree with. */
module RateWindows {
  import opened Wire

  type Key = string

  /** The largest integer a JavaScript number represents safely. */
  const MAX_SAFE_INTEGER: int := 0x1F_FFFF_FFFF_FFFF

  datatype Window = Window(count: nat, resetsAt: int)

  type Windows = map<Key, Window>

  datatype Config = Config(limit: int, windowMilliseconds: int, maxTrackedKeys: int)

  /** A JavaScript number: an integer, or something that is not one. */
  datatype Number = Integer(value: int) | NotAnInteger

  predicate SafePositive(n: Number) {
    n.Integer? && 1 <= n.value <= MAX_SAFE_INTEGER
  }

  predicate ValidConfig(c: Config) {
    && 1 <= c.limit <= MAX_SAFE_INTEGER
    && 1 <= c.windowMilliseconds <= MAX_SAFE_INTEGER
    && 1 <= c.maxTrackedKeys <= MAX_SAFE_INTEGER
  }

  /** The times the limiter accepts. */
  predicate ValidTime(c: Config, now: Number) {
    now.Integer? && 0 <= now.value <= MAX_SAFE_INTEGER - c.windowMilliseconds
  }

  /** The windows that have not expired. */
  function Live(windows: Windows, now: int): Windows {
    map key | key in windows && windows[key].resetsAt > now :: windows[key]
  }

  predicate Admits(c: Config, live: Windows, key: Key) {
    if key in live then live[key].count < c.limit else |live| < c.maxTrackedKeys
  }

  function Count(c: Config, live: Windows, key: Key, now: int): Windows {
    live[key := if key in live then live[key].(count := live[key].count + 1) else Window(1, now + c.windowMilliseconds)]
  }

  datatype Call = Allow(key: Key, now: Number) | CanAllow(key: Key, now: Number) | Consume(key: Key, now: Number)

  /** Whether a call counts an admission of its key. */
  predicate Counts(c: Config, windows: Windows, call: Call) {
    && ValidTime(c, call.now)
    && !call.CanAllow?
    && Admits(c, Live(windows, call.now.value), call.key)
  }

  /** What a call leaves. */
  function Next(c: Config, windows: Windows, call: Call): Windows {
    if !ValidTime(c, call.now) then windows
    else
      var live := Live(windows, call.now.value);
      if Counts(c, windows, call) then Count(c, live, call.key, call.now.value) else live
  }

  // ---------- Bounds over whole runs ----------

  /** No window counts more than the limit, no more keys are tracked than allowed, and
      expiry times stay exact. */
  ghost predicate WithinBounds(c: Config, windows: Windows) {
    && (forall key | key in windows :: 1 <= windows[key].count <= c.limit && windows[key].resetsAt <= MAX_SAFE_INTEGER)
    && |windows| <= c.maxTrackedKeys
  }

  /** A key is admitted exactly when counting the admission keeps the bounds. */
  lemma AdmitsWithinBounds(c: Config, windows: Windows, key: Key, now: int)
    requires ValidConfig(c) && WithinBounds(c, windows) && now + c.windowMilliseconds <= MAX_SAFE_INTEGER
    ensures Admits(c, windows, key) <==> WithinBounds(c, Count(c, windows, key, now))
  {
    var counted := Count(c, windows, key, now);
    assert counted[key].count == if key in windows then windows[key].count + 1 else 1;
    assert counted.Keys == windows.Keys + {key};
    assert key !in windows ==> |counted.Keys| == |windows.Keys| + 1;
    assert key in windows ==> counted.Keys == windows.Keys;
  }

  lemma LiveShrinks(windows: Windows, now: int)
    ensures |Live(windows, now)| <= |windows|
  {
    var live := Live(windows, now);
    assert live.Keys <= windows.Keys;
    SubsetSize(live.Keys, windows.Keys);
  }

  lemma BoundsKept(c: Config, windows: Windows, call: Call)
    requires ValidConfig(c) && WithinBounds(c, windows)
    ensures WithinBounds(c, Next(c, windows, call))
  {
    if ValidTime(c, call.now) {
      var now := call.now.value;
      LiveShrinks(windows, now);
      var live := Live(windows, now);
      var counted := Count(c, live, call.key, now);
      assert counted.Keys == live.Keys + {call.key};
    }
  }

  /** One admission: its time, the number of its window and when that window started. */
  datatype Admission = Admission(at: int, window: nat, start: int)

  /** The windows after a run, with the admissions of one key. */
  datatype Run = Run(windows: Windows, log: seq<Admission>)

  function Step(c: Config, key: Key, r: Run, call: Call): Run {
    var windows := Next(c, r.windows, call);
    if call.key != key || !Counts(c, r.windows, call) then r.(windows := windows)
    else
      var now := call.now.value;
      var n := |r.log|;
      Run(windows, r.log + [
        if key in Live(r.windows, now) && n > 0 then Admission(now, r.log[n - 1].window, r.log[n - 1].start)
        else Admission(now, if n > 0 then r.log[n - 1].window + 1 else 0, now)])
  }

  function RunOf(c: Config, key: Key, calls: seq<Call>): Run {
    if calls == [] then Run(map[], [])
    else Step(c, key, RunOf(c, key, calls[..|calls| - 1]), calls[|calls| - 1])
  }

  /** The accepted times never decrease. */
  ghost predicate Monotonic(c: Config, calls: seq<Call>) {
    forall i, j | 0 <= i < j < |calls| && ValidTime(c, calls[i].now) && ValidTime(c, calls[j].now) ::
      calls[i].now.value <= calls[j].now.value
  }

  predicate Ordered(c: Config, a: Admission, b: Admission) {
    && a.at <= b.at
    && ((a.window == b.window && a.start == b.start) || (a.window < b.window && a.start + c.windowMilliseconds <= b.start))
  }

  /** The admission starts a new window. */
  predicate Opens(log: seq<Admission>, i: nat)
    requires i < |log|
  {
    i == 0 || log[i - 1].window != log[i].window
  }

  ghost predicate Grouped(c: Config, log: seq<Admission>) {
    && (forall i | 0 <= i < |log| :: log[i].start <= log[i].at < log[i].start + c.windowMilliseconds)
    && (forall i, j | 0 <= i < j < |log| :: Ordered(c, log[i], log[j]))
    && (forall i, j | 0 <= i < j < |log| && log[i].window == log[j].window :: j - i < c.limit)
    && (forall i | 0 <= i < |log| && Opens(log, i) :: log[i].at == log[i].start)
  }

  /** The last `count` admissions are those of the last window. */
  ghost predicate LastCount(log: seq<Admission>, count: nat) {
    && 1 <= count <= |log|
    && (forall i | 0 <= i < |log| :: log[i].window == log[|log| - 1].window <==> |log| - count <= i)
  }

  /** What the limiter's window of the key says about the log, and nothing is later than `now`. */
  ghost predicate Synced(c: Config, key: Key, r: Run, now: int) {
    var n := |r.log|;
    && (forall i | 0 <= i < n :: r.log[i].at <= now)
    && (key in r.windows ==>
          var w := r.windows[key];
          && LastCount(r.log, w.count) && w.count <= c.limit
          && w.resetsAt == r.log[n - 1].start + c.windowMilliseconds)
    && (key !in r.windows && n > 0 ==> r.log[n - 1].start + c.windowMilliseconds <= now)
  }

  lemma OpeningsPush(log: seq<Admission>, a: Admission)
    requires forall i | 0 <= i < |log| && Opens(log, i) :: log[i].at == log[i].start
    requires Opens(log + [a], |log|) ==> a.at == a.start
    ensures forall i | 0 <= i < |log + [a]| && Opens(log + [a], i) :: (log + [a])[i].at == (log + [a])[i].start
  {
    var longer := log + [a];
    forall i | 0 <= i < |longer| && Opens(longer, i)
      ensures longer[i].at == longer[i].start
    {
      assert i < |log| ==> longer[i] == log[i] && Opens(log, i);
    }
  }

  lemma GroupedPush(c: Config, log: seq<Admission>, a: Admission)
    requires Grouped(c, log) && a.start <= a.at < a.start + c.windowMilliseconds
    requires forall i | 0 <= i < |log| :: Ordered(c, log[i], a)
    requires forall i | 0 <= i < |log| && log[i].window == a.window :: |log| - i < c.limit
    requires Opens(log + [a], |log|) ==> a.at == a.start
    ensures Grouped(c, log + [a])
  {
    hide Ordered, Opens;
    var longer := log + [a];
    OpeningsPush(log, a);
    assert forall i | 0 <= i < |log| :: longer[i] == log[i];
    forall i, j | 0 <= i < j < |longer|
      ensures Ordered(c, longer[i], longer[j])
      ensures longer[i].window == longer[j].window ==> j - i < c.limit
    {
      assert j < |log| ==> Ordered(c, log[i], log[j]);
    }
  }

  lemma AppendSame(c: Config, log: seq<Admission>, now: int, count: nat)
    requires Grouped(c, log) && LastCount(log, count) && count < c.limit
    requires forall i | 0 <= i < |log| :: log[i].at <= now
    requires now < log[|log| - 1].start + c.windowMilliseconds
    ensures var longer := log + [Admission(now, log[|log| - 1].window, log[|log| - 1].start)];
            Grouped(c, longer) && LastCount(longer, count + 1)
  {
    var n := |log|;
    var a := Admission(now, log[n - 1].window, log[n - 1].start);
    assert log[n - 1].start <= log[n - 1].at <= now;
    forall i | 0 <= i < n
      ensures Ordered(c, log[i], a)
    {
      assert i == n - 1 || Ordered(c, log[i], log[n - 1]);
    }
    GroupedPush(c, log, a);
  }

  lemma ComesAfter(c: Config, log: seq<Admission>, a: Admission, i: nat)
    requires Grouped(c, log) && i < |log|
    requires log[i].at <= a.at && log[|log| - 1].window < a.window && log[|log| - 1].start + c.windowMilliseconds <= a.start
    ensures Ordered(c, log[i], a) && log[i].window < a.window
  {
    assert i == |log| - 1 || Ordered(c, log[i], log[|log| - 1]);
  }

  lemma AppendNew(c: Config, log: seq<Admission>, now: int)
    requires ValidConfig(c) && Grouped(c, log)
    requires forall i | 0 <= i < |log| :: log[i].at <= now
    requires log != [] ==> log[|log| - 1].start + c.windowMilliseconds <= now
    ensures var longer := log + [Admission(now, if log == [] then 0 else log[|log| - 1].window + 1, now)];
            Grouped(c, longer) && LastCount(longer, 1)
  {
    hide Grouped;
    var a := Admission(now, if log == [] then 0 else log[|log| - 1].window + 1, now);
    forall i | 0 <= i < |log|
      ensures Ordered(c, log[i], a) && log[i].window < a.window
    {
      ComesAfter(c, log, a, i);
    }
    GroupedPush(c, log, a);
  }

  lemma StepGroups(c: Config, key: Key, r: Run, call: Call, before: int)
    requires ValidConfig(c) && Grouped(c, r.log) && Synced(c, key, r, before)
    requires ValidTime(c, call.now) ==> before <= call.now.value
    ensures Grouped(c, Step(c, key, r, call).log)
    ensures Synced(c, key, Step(c, key, r, call), if ValidTime(c, call.now) then call.now.value else before)
  {
    hide Grouped;
    if call.key == key && Counts(c, r.windows, call) {
      var (now, n) := (call.now.value, |r.log|);
      if key in Live(r.windows, now) {
        AppendSame(c, r.log, now, r.windows[key].count);
      } else {
        AppendNew(c, r.log, now);
      }
    }
  }

  /** The time of the last accepted call. */
  function LastTime(c: Config, calls: seq<Call>): int {
    if calls == [] then 0
    else
      var last := calls[|calls| - 1];
      if ValidTime(c, last.now) then last.now.value else LastTime(c, calls[..|calls| - 1])
  }

  lemma {:induction false} LastTimeIsBefore(c: Config, calls: seq<Call>, now: int)
    requires 0 <= now && forall i | 0 <= i < |calls| && ValidTime(c, calls[i].now) :: calls[i].now.value <= now
    ensures LastTime(c, calls) <= now
  {
    if calls != [] {
      LastTimeIsBefore(c, calls[..|calls| - 1], now);
    }
  }

  lemma {:induction false} RunGroups(c: Config, key: Key, calls: seq<Call>)
    requires ValidConfig(c) && Monotonic(c, calls)
    ensures Grouped(c, RunOf(c, key, calls).log)
    ensures Synced(c, key, RunOf(c, key, calls), LastTime(c, calls))
  {
    if calls != [] {
      var front := calls[..|calls| - 1];
      var last := calls[|calls| - 1];
      RunGroups(c, key, front);
      if ValidTime(c, last.now) {
        LastTimeIsBefore(c, front, last.now.value);
      }
      StepGroups(c, key, RunOf(c, key, front), last, LastTime(c, front));
    }
  }

  /** Two times the limit later more than a window has passed; one admission earlier at
      least a whole window. */
  lemma Spaced(c: Config, log: seq<Admission>, i: nat)
    requires ValidConfig(c) && Grouped(c, log)
    ensures i + 2 * c.limit < |log| ==> log[i + 2 * c.limit].at > log[i].at + c.windowMilliseconds
    ensures i + 2 * c.limit - 1 < |log| ==> log[i + 2 * c.limit - 1].at >= log[i].at + c.windowMilliseconds
  {
    var n := c.limit;
    if i + 2 * n < |log| {
      assert Ordered(c, log[i], log[i + n]) && Ordered(c, log[i + n], log[i + 2 * n]);
    }
    if i + 2 * n - 1 < |log| {
      var (mid, end) := (i + n - 1, i + 2 * n - 1);
      assert Ordered(c, log[mid], log[end]) && log[mid].window != log[end].window;
      assert i == mid || Ordered(c, log[i], log[mid]);
      if log[mid].window == log[i].window {
        assert i > 0 ==> mid - (i - 1) >= n && log[i - 1].window != log[mid].window;
        assert Opens(log, i);
      }
    }
  }

  ghost predicate Sorted(log: seq<Admission>) {
    forall i, j | 0 <= i < j < |log| :: log[i].at <= log[j].at
  }

  lemma GroupedIsSorted(c: Config, log: seq<Admission>)
    requires Grouped(c, log)
    ensures Sorted(log)
  {
    forall i, j | 0 <= i < j < |log|
      ensures log[i].at <= log[j].at
    {
      assert Ordered(c, log[i], log[j]);
    }
  }

  /** How many of the admissions fall between two times, both included. */
  function CountBetween(log: seq<Admission>, low: int, high: int): nat {
    if log == [] then 0
    else CountBetween(log[..|log| - 1], low, high) + (if low <= log[|log| - 1].at <= high then 1 else 0)
  }

  /** More than `n` admissions in an interval span `n` positions of the log. */
  lemma {:induction false} Pigeonhole(log: seq<Admission>, low: int, high: int, n: nat) returns (i: nat)
    requires Sorted(log)
    requires CountBetween(log, low, high) > n
    ensures i + n < |log| && low <= log[i].at && log[i + n].at <= high
  {
    var front := log[..|log| - 1];
    if CountBetween(front, low, high) > n {
      i := Pigeonhole(front, low, high, n);
    } else {
      i := FirstFrom(log, low, high, n);
    }
  }

  /** If the last admission is the one too many, the interval reaches back `n` positions. */
  lemma {:induction false} FirstFrom(log: seq<Admission>, low: int, high: int, n: nat) returns (i: nat)
    requires log != [] && low <= log[|log| - 1].at <= high && CountBetween(log, low, high) > n
    requires Sorted(log)
    ensures i + n == |log| - 1 && low <= log[i].at
    decreases n
  {
    i := |log| - 1;
    if n > 0 {
      var front := log[..|log| - 1];
      assert front != [];
      assert log[|log| - 2].at <= log[|log| - 1].at;
      if log[|log| - 2].at < low {
        NoneBelow(front, low, high);
        assert false;
      }
      i := FirstFrom(front, low, high, n - 1);
    }
  }

  lemma {:induction false} NoneBelow(log: seq<Admission>, low: int, high: int)
    requires log != [] ==> log[|log| - 1].at < low
    requires Sorted(log)
    ensures CountBetween(log, low, high) == 0
  {
    if log != [] {
      var front := log[..|log| - 1];
      if front != [] {
        assert log[|log| - 2].at <= log[|log| - 1].at;
      }
      NoneBelow(front, low, high);
    }
  }

  lemma GroupedBound(c: Config, log: seq<Admission>, low: int, high: int, n: nat)
    requires ValidConfig(c) && Grouped(c, log)
    requires (n == 2 * c.limit && high == low + c.windowMilliseconds)
          || (n == 2 * c.limit - 1 && high == low + c.windowMilliseconds - 1)
    ensures CountBetween(log, low, high) <= n
  {
    hide Grouped, Sorted, CountBetween;
    if CountBetween(log, low, high) > n {
      GroupedIsSorted(c, log);
      var i := Pigeonhole(log, low, high, n);
      Spaced(c, log, i);
      assert false;
    }
  }

  /** Over every run with nondecreasing times, an interval of one window's length holds at
      most twice the limit of admissions of a key, one fewer if an end point is left out. */
  lemma RateBound(c: Config, key: Key, calls: seq<Call>, t: int)
    requires ValidConfig(c) && Monotonic(c, calls)
    ensures CountBetween(RunOf(c, key, calls).log, t, t + c.windowMilliseconds) <= 2 * c.limit
    ensures CountBetween(RunOf(c, key, calls).log, t, t + c.windowMilliseconds - 1) <= 2 * c.limit - 1
  {
    hide Grouped, CountBetween;
    RunGroups(c, key, calls);
    var log := RunOf(c, key, calls).log;
    GroupedBound(c, log, t, t + c.windowMilliseconds, 2 * c.limit);
    GroupedBound(c, log, t, t + c.windowMilliseconds - 1, 2 * c.limit - 1);
  }

  /** A valid call is refused only with reason: the key has been admitted as often as the limit
      says within less than one window's length, or it has no window and there is no room to
      track another key. */
  lemma RefusalIsDue(c: Config, key: Key, calls: seq<Call>, now: int)
    requires ValidConfig(c) && Monotonic(c, calls + [Allow(key, Integer(now))]) && 0 <= now <= MAX_SAFE_INTEGER - c.windowMilliseconds
    ensures var r := RunOf(c, key, calls);
            var n := |r.log|;
            !Counts(c, r.windows, Allow(key, Integer(now))) ==>
              || (n >= c.limit && now < r.log[n - c.limit].at + c.windowMilliseconds)
              || ((key in r.windows ==> r.windows[key].resetsAt <= now)
                  && |set x | x in r.windows && r.windows[x].resetsAt > now| >= c.maxTrackedKeys)
  {
    hide Grouped, LastCount, Monotonic, RunOf;
    var r := RunOf(c, key, calls);
    MonotonicPrefix(c, calls, Allow(key, Integer(now)));
    RunGroups(c, key, calls);
    if key in r.windows && r.windows[key].resetsAt > now {
      if r.windows[key].count == c.limit {
        FullWindow(c, r.log, now);
      }
    } else {
      assert Live(r.windows, now).Keys == set x | x in r.windows && r.windows[x].resetsAt > now;
    }
  }

  /** All admissions of one window have its start. */
  lemma SameStart(c: Config, log: seq<Admission>, i: nat)
    requires Grouped(c, log) && i < |log| && log[i].window == log[|log| - 1].window
    ensures log[|log| - 1].start <= log[i].at
  {
    assert log[i].start <= log[i].at;
    assert i < |log| - 1 ==> Ordered(c, log[i], log[|log| - 1]);
  }

  lemma FirstOfLast(log: seq<Admission>, count: nat)
    requires LastCount(log, count)
    ensures log[|log| - count].window == log[|log| - 1].window
  {
  }

  lemma FullWindow(c: Config, log: seq<Admission>, now: int)
    requires ValidConfig(c) && Grouped(c, log) && LastCount(log, c.limit) && now < log[|log| - 1].start + c.windowMilliseconds
    ensures |log| >= c.limit && now < log[|log| - c.limit].at + c.windowMilliseconds
  {
    hide Grouped;
    FirstOfLast(log, c.limit);
    SameStart(c, log, |log| - c.limit);
  }

  lemma MonotonicPrefix(c: Config, calls: seq<Call>, call: Call)
    requires Monotonic(c, calls + [call])
    ensures Monotonic(c, calls)
  {
    assert forall i | 0 <= i < |calls| :: (calls + [call])[i] == calls[i];
  }

  /** The state every run reaches, and that it is the one the log belongs to. */
  lemma {:induction false} RunWithinBounds(c: Config, key: Key, calls: seq<Call>)
    requires ValidConfig(c)
    ensures WithinBounds(c, RunOf(c, key, calls).windows)
  {
    if calls != [] {
      var front := calls[..|calls| - 1];
      RunWithinBounds(c, key, front);
      BoundsKept(c, RunOf(c, key, front).windows, calls[|calls| - 1]);
    }
  }
}
