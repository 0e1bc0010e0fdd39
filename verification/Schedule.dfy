/** When the daily cleanup runs. Local time is eight hours ahead of UTC. */
module Schedule {
  import opened Tiles

  const OFFSET: nat := 28_800
  const DAY: nat := 86_400
  const HOUR: nat := 3_600

  function Local(now: nat): nat { SaturatingAdd(now, OFFSET) }

  function LocalDay(now: nat): nat { Local(now) / DAY }

  function LocalHour(now: nat): nat { Local(now) % DAY / HOUR }

  /** Local time in seconds: days of 86,400 and hours of 3,600, eight hours ahead. */
  lemma LocalTimes(now: nat)
    requires now + 28_800 <= WORD_MAX
    ensures LocalDay(now) * 86_400 + LocalHour(now) * 3_600 <= now + 28_800
            < LocalDay(now) * 86_400 + (LocalHour(now) + 1) * 3_600
    ensures LocalHour(now) <= 23
  {
    var local := now + 28_800;
    assert local == LocalDay(now) * 86_400 + local % 86_400;
  }

  // The announced next run

  function NextCleanupEpoch(now: nat, cleanupHour: nat): nat {
    var local := Local(now);
    var today := local / DAY * DAY + cleanupHour * HOUR;
    SaturatingSub(if local < today then today else today + DAY, OFFSET)
  }

  /** The moment a local cleanup hour begins. */
  predicate Begins(t: int, cleanupHour: nat) { (t + 28_800) % 86_400 == cleanupHour * 3_600 }

  /** No moment strictly between two daily occurrences of an hour begins it. */
  lemma SameDayUnique(local: nat, u: nat, start: nat)
    requires start < DAY && u % DAY == start
    ensures !(local < u < local / DAY * DAY + start)
    ensures !(local / DAY * DAY + start <= local < u < local / DAY * DAY + start + DAY)
  {
    var day, k := local / DAY, u / DAY;
    assert u == k * DAY + start && day * DAY <= local;
    if k <= day - 1 {
      assert k * DAY <= (day - 1) * DAY;
    } else if k >= day + 1 {
      assert k * DAY >= (day + 1) * DAY;
    }
  }

  lemma TodayBegins(local: nat, start: nat)
    requires start < DAY
    ensures (local / DAY * DAY + start) % DAY == start && (local / DAY * DAY + start + DAY) % DAY == start
  {
  }

  /** Away from overflow, the announced time is the least moment after now that begins the configured local hour,
      and it is at most one day away. */
  lemma NextCleanupIsNext(now: nat, cleanupHour: nat)
    requires cleanupHour <= 23 && now + OFFSET + 2 * DAY <= WORD_MAX
    ensures var next := NextCleanupEpoch(now, cleanupHour);
            && now < next <= now + 86_400
            && Begins(next, cleanupHour)
            && forall t: nat :: now < t < next ==> !Begins(t, cleanupHour)
  {
    var local, start := now + OFFSET, cleanupHour * HOUR;
    TodayBegins(local, start);
    forall t: nat | now < t < NextCleanupEpoch(now, cleanupHour) ensures !Begins(t, cleanupHour) {
      if Begins(t, cleanupHour) { SameDayUnique(local, t + OFFSET, start); }
    }
  }

  // The maintenance loop

  datatype Settings = Settings(retentionDays: nat, cleanupHour: nat)

  datatype Run = Run(completedAt: nat, scheduled: bool)

  /** A tick of the loop, or a cleanup an administrator started. Each records its run before the next event. */
  datatype Event = Tick(now: nat, settings: Settings) | Manual(now: nat)

  predicate Due(now: nat, settings: Settings, runs: seq<Run>) {
    && settings.retentionDays != 0
    && LocalHour(now) == settings.cleanupHour
    && (runs == [] || LocalDay(runs[|runs| - 1].completedAt) != LocalDay(now))
  }

  function Step(runs: seq<Run>, event: Event): seq<Run> {
    match event
    case Manual(now) => runs + [Run(now, false)]
    case Tick(now, settings) => if Due(now, settings, runs) then runs + [Run(now, true)] else runs
  }

  function Runs(events: seq<Event>): seq<Run> {
    if events == [] then [] else Step(Runs(events[..|events| - 1]), events[|events| - 1])
  }

  predicate Monotone(events: seq<Event>) {
    forall i, j :: 0 <= i < j < |events| ==> events[i].now <= events[j].now
  }

  /** Runs are in time order and not later than the last event. */
  lemma {:induction false} RunsInOrder(events: seq<Event>)
    requires Monotone(events)
    ensures var runs := Runs(events);
            && (forall i, j :: 0 <= i < j < |runs| ==> runs[i].completedAt <= runs[j].completedAt)
            && (runs != [] ==> events != [] && runs[|runs| - 1].completedAt <= events[|events| - 1].now)
  {
    if events != [] {
      var prior := events[..|events| - 1];
      RunsInOrder(prior);
    }
  }

  /** A scheduled run is the first run of its local day, whatever else ran that day. */
  lemma {:induction false} ScheduledFirstOfDay(events: seq<Event>, i: nat, j: nat)
    requires Monotone(events) && i < j < |Runs(events)| && Runs(events)[j].scheduled
    ensures LocalDay(Runs(events)[i].completedAt) < LocalDay(Runs(events)[j].completedAt)
  {
    var n := |events| - 1;
    var prior, event := events[..n], events[n];
    var before := Runs(prior);
    if j < |before| {
      ScheduledFirstOfDay(prior, i, j);
    } else {
      RunsInOrder(prior);
      var last := before[|before| - 1];
    }
  }

  /** At most one scheduled cleanup happens on a local day. */
  lemma OneScheduledRunPerDay(events: seq<Event>, i: nat, j: nat)
    requires Monotone(events) && i < |Runs(events)| && j < |Runs(events)|
    requires Runs(events)[i].scheduled && Runs(events)[j].scheduled
    requires LocalDay(Runs(events)[i].completedAt) == LocalDay(Runs(events)[j].completedAt)
    ensures i == j
  {
    if i < j { ScheduledFirstOfDay(events, i, j); } else if j < i { ScheduledFirstOfDay(events, j, i); }
  }

  /** A cleanup that an administrator starts is on record. */
  lemma {:induction false} ManualRecorded(events: seq<Event>, e: nat)
    requires e < |events| && events[e].Manual?
    ensures Run(events[e].now, false) in Runs(events)
  {
    var n := |events| - 1;
    var prior := events[..n];
    if e < n { ManualRecorded(prior, e); }
  }

  /** A record that is not scheduled is of a cleanup that an administrator started then. */
  lemma {:induction false} UnscheduledWasManual(events: seq<Event>, i: nat)
    requires i < |Runs(events)| && !Runs(events)[i].scheduled
    ensures exists e :: 0 <= e < |events| && events[e] == Manual(Runs(events)[i].completedAt)
  {
    var n := |events| - 1;
    var prior := events[..n];
    if i < |Runs(prior)| {
      UnscheduledWasManual(prior, i);
      var e :| 0 <= e < |prior| && prior[e] == Manual(Runs(prior)[i].completedAt);
      assert events[e] == prior[e];
    }
  }

  /** Every scheduled run belongs to a tick in the hour then configured, with cleanup enabled. */
  lemma {:induction false} ScheduledInConfiguredHour(events: seq<Event>, i: nat)
    requires i < |Runs(events)| && Runs(events)[i].scheduled
    ensures exists e :: 0 <= e < |events| && events[e].Tick? && events[e].now == Runs(events)[i].completedAt
                        && events[e].settings.retentionDays != 0
                        && LocalHour(events[e].now) == events[e].settings.cleanupHour
  {
    var n := |events| - 1;
    var prior := events[..n];
    if i < |Runs(prior)| {
      ScheduledInConfiguredHour(prior, i);
      var e :| 0 <= e < |prior| && prior[e].Tick? && prior[e].now == Runs(prior)[i].completedAt
               && prior[e].settings.retentionDays != 0 && LocalHour(prior[e].now) == prior[e].settings.cleanupHour;
      assert events[e] == prior[e];
    }
  }

  // The loop, with the idle eviction of cached tiles beside the daily run

  const SWEEP_INTERVAL: nat := 300

  /** Instants of the loop's own clock, which never goes back. */
  predicate Clock(instants: seq<nat>) {
    forall i, j :: 0 <= i < j < |instants| ==> instants[i] <= instants[j]
  }

  function LastSweep(sweeps: seq<nat>, started: nat): nat {
    if sweeps == [] then started else sweeps[|sweeps| - 1]
  }

  /** The instants of the sweeps that the first n events bring about. */
  function Sweeps(events: seq<Event>, instants: seq<nat>, started: nat, n: nat): seq<nat>
    requires n <= |events| == |instants|
  {
    if n == 0 then []
    else
      var sweeps := Sweeps(events, instants, started, n - 1);
      var due := events[n - 1].Tick? && instants[n - 1] - LastSweep(sweeps, started) >= SWEEP_INTERVAL;
      if due then sweeps + [instants[n - 1]] else sweeps
  }

  predicate SweptBefore(sweeps: seq<nat>, instant: nat) {
    exists s :: 0 <= s < |sweeps| && sweeps[s] <= instant < sweeps[s] + 300
  }

  /** Sweeps are five minutes or more after the start and after each other. */
  lemma {:induction false} SweepsApart(events: seq<Event>, instants: seq<nat>, started: nat, n: nat, s: nat)
    requires n <= |events| == |instants| && s < |Sweeps(events, instants, started, n)|
    ensures var sweeps := Sweeps(events, instants, started, n);
            sweeps[s] >= LastSweep(sweeps[..s], started) + 300
  {
    var before, after := Sweeps(events, instants, started, n - 1), Sweeps(events, instants, started, n);
    assert after[..s] == before[..s];
    if s < |before| { SweepsApart(events, instants, started, n - 1, s); } else { assert before[..s] == before; }
  }

  /** Every tick five minutes or more after the start has a sweep in the five minutes up to it. */
  lemma {:induction false} NoSweepMissed(events: seq<Event>, instants: seq<nat>, started: nat, n: nat, e: nat)
    requires e < n <= |events| == |instants| && events[e].Tick? && instants[e] >= started + 300
    requires Clock(instants)
    ensures SweptBefore(Sweeps(events, instants, started, n), instants[e])
  {
    var before, after := Sweeps(events, instants, started, n - 1), Sweeps(events, instants, started, n);
    if e < n - 1 {
      NoSweepMissed(events, instants, started, n - 1, e);
      var s :| 0 <= s < |before| && before[s] <= instants[e] < before[s] + 300;
      assert after[s] == before[s];
    } else {
      SweepsPast(events, instants, started, n - 1);
      assert after != [] && after[|after| - 1] == LastSweep(after, started);
    }
  }

  lemma {:induction false} SweepsPast(events: seq<Event>, instants: seq<nat>, started: nat, n: nat)
    requires n < |events| == |instants| && Clock(instants)
    ensures var sweeps := Sweeps(events, instants, started, n);
            sweeps != [] ==> LastSweep(sweeps, started) <= instants[n]
  {
    if n > 0 { SweepsPast(events, instants, started, n - 1); }
  }

  /** The loop over a finite stretch of events; sweeps happen only when idle eviction is enabled. */
  method MaintenanceLoop(events: seq<Event>, instants: seq<nat>, idleSeconds: nat, started: nat)
    returns (runs: seq<Run>, sweeps: seq<nat>)
    requires |events| == |instants|
    ensures runs == Runs(events)
    ensures sweeps == if idleSeconds == 0 then [] else Sweeps(events, instants, started, |events|)
  {
    runs, sweeps := [], [];
    var lastSweep := started;
    for n := 0 to |events|
      invariant runs == Runs(events[..n])
      invariant lastSweep == LastSweep(sweeps, started)
      invariant sweeps == if idleSeconds == 0 then [] else Sweeps(events, instants, started, n)
    {
      assert events[..n + 1][..n] == events[..n];
      match events[n]
      case Manual(now) =>
        runs := runs + [Run(now, false)];
      case Tick(now, settings) =>
        if idleSeconds > 0 && instants[n] - lastSweep >= SWEEP_INTERVAL {
          sweeps := sweeps + [instants[n]];
          lastSweep := instants[n];
        }
        if Due(now, settings, runs) {
          runs := runs + [Run(now, true)];
        }
    }
    assert events[..|events|] == events;
  }

  // No day is missed

  predicate Consecutive(events: seq<Event>, i: nat, j: nat) {
    && i < j < |events| && events[i].Tick? && events[j].Tick?
    && forall m :: i < m < j ==> !events[m].Tick?
  }

  /** Consecutive ticks are less than an hour apart. */
  ghost predicate Dense(events: seq<Event>) {
    forall i: nat, j: nat :: Consecutive(events, i, j) ==> events[j].now - events[i].now < 3_600
  }

  predicate RanOn(runs: seq<Run>, day: nat) {
    exists r :: 0 <= r < |runs| && LocalDay(runs[r].completedAt) == day
  }

  lemma {:induction false} RunsGrow(events: seq<Event>, n: nat, day: nat)
    requires n <= |events| && RanOn(Runs(events[..n]), day)
    ensures RanOn(Runs(events), day)
    decreases |events| - n
  {
    if n == |events| {
      assert events[..n] == events;
    } else {
      assert events[..n + 1][..n] == events[..n];
      var r :| 0 <= r < |Runs(events[..n])| && LocalDay(Runs(events[..n])[r].completedAt) == day;
      assert Runs(events[..n + 1])[r] == Runs(events[..n])[r];
      RunsGrow(events, n + 1, day);
    }
  }

  lemma {:induction false} NextTick(events: seq<Event>, i: nat, j: nat) returns (next: nat)
    requires i < j < |events| && events[i].Tick? && events[j].Tick?
    ensures next <= j && Consecutive(events, i, next)
    decreases j
  {
    if m :| i < m < j && events[m].Tick? {
      next := NextTick(events, i, m);
    } else {
      next := j;
    }
  }

  /** The first tick not before `start` comes less than an hour after it. */
  lemma {:induction false} TickWithinHour(events: seq<Event>, i: nat, j: nat, start: nat) returns (tick: nat)
    requires Dense(events) && i <= j < |events| && events[i].Tick? && events[j].Tick?
    requires events[i].now <= start <= events[j].now
    ensures tick <= j && events[tick].Tick? && start <= events[tick].now < start + HOUR
    decreases j - i
  {
    if events[i].now == start {
      tick := i;
    } else {
      var next := NextTick(events, i, j);
      assert events[next].now - events[i].now < HOUR;
      if events[next].now >= start {
        tick := next;
      } else {
        tick := TickWithinHour(events, next, j, start);
      }
    }
  }

  /** A tick in the configured hour leaves a run on record for its day. */
  lemma TickRecords(events: seq<Event>, e: nat)
    requires e < |events| && events[e].Tick? && events[e].settings.retentionDays != 0
    requires LocalHour(events[e].now) == events[e].settings.cleanupHour
    ensures RanOn(Runs(events), LocalDay(events[e].now))
  {
    var before, after := Runs(events[..e]), Runs(events[..e + 1]);
    assert events[..e + 1][..e] == events[..e];
    assert after == Step(before, events[e]);
    hide LocalDay, LocalHour, Runs;
    if Due(events[e].now, events[e].settings, before) {
      assert after[|after| - 1] == Run(events[e].now, true);
    } else {
      assert LocalDay(after[|after| - 1].completedAt) == LocalDay(events[e].now);
    }
    RunsGrow(events, e + 1, LocalDay(events[e].now));
  }

  /** With fixed settings, cleanup enabled and ticks less than an hour apart, every local day whose cleanup hour lies
      between the first and the last tick has a recorded run. */
  lemma EveryDayHasARun(events: seq<Event>, settings: Settings, first: nat, last: nat, day: nat)
    requires Dense(events) && first <= last < |events| && events[first].Tick? && events[last].Tick?
    requires settings.retentionDays != 0 && settings.cleanupHour <= 23
    requires forall e :: 0 <= e < |events| && events[e].Tick? ==> events[e].settings == settings
    requires events[first].now + 28_800 <= day * 86_400 && (day + 1) * 86_400 <= events[last].now + 28_800
    requires (day + 1) * 86_400 <= WORD_MAX
    ensures RanOn(Runs(events), day)
  {
    var begin := day * DAY + settings.cleanupHour * HOUR;
    var tick := TickWithinHour(events, first, last, begin - OFFSET);
    HourOfDay(day, settings.cleanupHour, events[tick].now + OFFSET);
    TickRecords(events, tick);
  }

  lemma HourOfDay(day: nat, hour: nat, local: nat)
    requires hour <= 23 && day * DAY + hour * HOUR <= local < day * DAY + hour * HOUR + HOUR
    ensures local / DAY == day && local % DAY / HOUR == hour
  {
    var r := local - day * DAY;
    assert local == day * DAY + r && 0 <= r < DAY;
  }
}
