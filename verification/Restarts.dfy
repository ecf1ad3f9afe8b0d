/** How often a child is started, and when it is given up. */
module Restarts {
  import opened Outcomes
  import opened Supervisor

  ghost predicate Ordered(exits: seq<Exit>) {
    forall i, j :: 0 <= i <= j < |exits| ==> exits[i].recordedAt <= exits[j].recordedAt
  }

  // In a sorted history the recent exits are the last ones.
  lemma {:induction false} RecentAreLast(exits: seq<Exit>, at: Time, window: Time, m: nat)
    requires Ordered(exits) && m >= 1
    ensures Recent(exits, at, window) >= m <==> |exits| >= m && at - exits[|exits| - m].recordedAt < window
    ensures Recent(exits, at, window) <= |exits|
  {
    if exits != [] {
      var n := |exits| - 1;
      RecentAreLast(exits[..n], at, window, 1);
      if m > 1 { RecentAreLast(exits[..n], at, window, m - 1); }
      if n > 0 { assert exits[n - 1].recordedAt <= exits[n].recordedAt; }
    }
  }

  // The bounded deque of a supervised child

  function LastOf(times: seq<Time>, m: nat): seq<Time> { if |times| <= m then times else times[|times| - m..] }

  function Recorded(exits: seq<Exit>): seq<Time> {
    seq(|exits|, i requires 0 <= i < |exits| => exits[i].recordedAt)
  }

  // Appending to a deque that keeps at most m entries drops the oldest one.
  function Appended(deque: seq<Time>, time: Time, m: nat): seq<Time>
    requires m >= 1
  {
    if |deque| < m then deque + [time] else deque[|deque| - m + 1..] + [time]
  }

  lemma {:induction false} AppendedKeepsLast(exits: seq<Exit>, exit: Exit, m: nat)
    requires m >= 1
    ensures Appended(LastOf(Recorded(exits), m), exit.recordedAt, m) == LastOf(Recorded(exits + [exit]), m)
  {
    assert Recorded(exits + [exit]) == Recorded(exits) + [exit.recordedAt];
  }

  /** Looking only at the last M exits decides as looking at all of them: the deque is full and its oldest
      entry is younger than the window exactly when at least M of all exits are. */
  lemma {:induction false} DequeRefinesHistory(exits: seq<Exit>, at: Time, config: Config)
    requires config.Valid() && Ordered(exits)
    ensures var deque := LastOf(Recorded(exits), config.maxRestarts);
      |deque| == config.maxRestarts && at - deque[0] < config.window <==> CrashLoop(exits, at, config)
  {
    RecentAreLast(exits, at, config.window, config.maxRestarts);
  }

  // One child's history

  lemma ExitFollows(st: State, n: Name, k: nat)
    requires ChildrenSound(st) && n in st.children && k + 1 < |st.children[n].exits|
    ensures st.children[n].exits[k].recordedAt <= st.children[n].exits[k + 1].recordedAt
  {
    hide CrashLoop, Streak, PhaseFits;
    assert ChildSound(st, n);
    assert ExitSound(st.children[n].exits, k, st.config) && ExitSound(st.children[n].exits, k + 1, st.config);
    DelayNotNegative(st.children[n].exits, k, st.config);
  }

  lemma {:induction false} ExitsOrdered(st: State, n: Name, i: nat, j: nat)
    requires ChildrenSound(st) && n in st.children && i <= j < |st.children[n].exits|
    ensures st.children[n].exits[i].recordedAt <= st.children[n].exits[j].recordedAt
  {
    hide ChildrenSound;
    if i < j {
      ExitsOrdered(st, n, i, j - 1);
      ExitFollows(st, n, j - 1);
    }
  }

  lemma DelayNotNegative(exits: seq<Exit>, k: nat, config: Config)
    requires k < |exits| && config.Valid() && ExitSound(exits, k, config) && exits[k].delay.Some?
    ensures exits[k].delay.value >= 0.0
  {
    hide CrashLoop;
    StreakPositive(exits, k, config);
  }

  lemma StreakPositive(exits: seq<Exit>, k: nat, config: Config)
    requires k < |exits| && config.Valid()
    ensures Streak(exits, k, config) >= 1
  {
  }

  lemma HistoryOrdered(st: State, n: Name)
    requires ChildrenSound(st) && n in st.children
    ensures Ordered(st.children[n].exits)
  {
    hide ChildrenSound;
    forall i, j | 0 <= i <= j < |st.children[n].exits|
      ensures st.children[n].exits[i].recordedAt <= st.children[n].exits[j].recordedAt
    {
      ExitsOrdered(st, n, i, j);
    }
  }

  lemma PrefixOrdered(exits: seq<Exit>, k: nat)
    requires Ordered(exits) && k <= |exits|
    ensures Ordered(exits[..k])
  {
  }

  /** Start i+M comes at least a window after start i, spawn failures included, in every run. */
  lemma {:induction false} StartRate(run: Run, n: Name, i: nat)
    requires Legal(run) && n in Exec(run).children
    requires i + Exec(run).config.maxRestarts < |Exec(run).children[n].starts|
    ensures Exec(run).children[n].starts[i + Exec(run).config.maxRestarts] - Exec(run).children[n].starts[i] >= Exec(run).config.window
  {
    hide Exec, Recent, Streak, PhaseFits;
    ChildrenStaySound(run);
    var st := Exec(run);
    var child := st.children[n];
    assert ChildSound(st, n);
    var k := i + st.config.maxRestarts - 1;
    HistoryOrdered(st, n);
    PrefixOrdered(child.exits, k + 1);
    RecentAreLast(child.exits[..k + 1], child.exits[k].checkedAt, st.config.window, st.config.maxRestarts);
    assert ExitSound(child.exits, k, st.config) && ExitSound(child.exits, i, st.config);
    DelayNotNegative(child.exits, k, st.config);
  }

  lemma {:induction false} StartsOrdered(st: State, n: Name, i: nat, j: nat)
    requires ChildrenSound(st) && n in st.children && i <= j < |st.children[n].starts|
    ensures st.children[n].starts[i] <= st.children[n].starts[j]
  {
    hide CrashLoop, Streak, PhaseFits;
    assert ChildSound(st, n);
    if i < j {
      StartsOrdered(st, n, i, j - 1);
      assert ExitSound(st.children[n].exits, j - 1, st.config);
      DelayNotNegative(st.children[n].exits, j - 1, st.config);
    }
  }

  /** Any half-open interval of the window's length holds at most M starts of a child. */
  lemma {:induction false} WindowHoldsAtMostM(run: Run, n: Name, from: Time, i: nat, j: nat)
    requires Legal(run) && n in Exec(run).children
    requires i <= j < |Exec(run).children[n].starts|
    requires from <= Exec(run).children[n].starts[i] && Exec(run).children[n].starts[j] < from + Exec(run).config.window
    ensures j - i + 1 <= Exec(run).config.maxRestarts
  {
    hide Exec;
    if j - i >= Exec(run).config.maxRestarts {
      ChildrenStaySound(run);
      StartRate(run, n, i);
      StartsOrdered(Exec(run), n, i + Exec(run).config.maxRestarts, j);
    }
  }

  /** A child is degraded exactly when, at its last exit, at least M of all its exits were younger than the
      window; at every earlier exit fewer were. */
  lemma {:induction false} DegradedIff(run: Run, n: Name)
    requires Legal(run) && n in Exec(run).children
    ensures var st := Exec(run); var exits := st.children[n].exits;
      && (n in st.degraded <==> exits != [] && CrashLoop(exits, exits[|exits| - 1].checkedAt, st.config))
      && (forall k :: 0 <= k < |exits| - 1 ==> !CrashLoop(exits[..k + 1], exits[k].checkedAt, st.config))
  {
    hide Exec, CrashLoop, Streak, PhaseFits, StartsSpaced;
    ChildrenStaySound(run);
    var st := Exec(run);
    var exits := st.children[n].exits;
    assert ChildSound(st, n);
    if exits != [] {
      assert exits[..|exits|] == exits;
      assert ExitSound(exits, |exits| - 1, st.config);
    }
    forall k | 0 <= k < |exits| - 1 ensures !CrashLoop(exits[..k + 1], exits[k].checkedAt, st.config) {
      assert ExitSound(exits, k, st.config);
    }
  }

  /** What an exit or a failed spawn leaves behind before shutdown: one more exit, with the time of its start
      and the three readings taken, and the child either backing off from the last reading or given up. */
  lemma {:induction false} ExitIsRecorded(run: Run, step: Step)
    requires Legal(Then(run, step)) && !Exec(run).stopping && (step.WaitReturns? || step.SpawnFails?)
    ensures step.name in Exec(run).children && step.name in Exec(Then(run, step)).children
    ensures var was, now := Exec(run).children[step.name], Exec(Then(run, step)).children[step.name];
      && |now.exits| == |was.exits| + 1 && now.exits[..|was.exits|] == was.exits && now.starts == was.starts
      && var exit := now.exits[|was.exits|];
      && |was.starts| == |now.exits| && exit.startedAt == was.starts[|was.exits|]
      && exit.measuredAt == step.measuredAt && exit.recordedAt == step.recordedAt && exit.checkedAt == step.checkedAt
      && now.phase == (if exit.delay.Some? then Backoff(step.checkedAt, exit.delay.value) else Returned)
  {
    hide Exec, CrashLoop, Streak, ExitSound, StartsSpaced, Quiet, Settled;
    LegalThen(run, step);
    ChildrenStaySound(run);
    var st := Exec(run);
    assert ChildSound(st, step.name);
    var startedAt := st.children[step.name].phase.startedAt;
    SettledRecords(st, step.name, startedAt, step.measuredAt, step.recordedAt, step.checkedAt);
    SettledRecords(st.(processes := st.processes - {step.name}), step.name, startedAt, step.measuredAt, step.recordedAt, step.checkedAt);
  }

  lemma LegalThen(run: Run, step: Step)
    requires Legal(Then(run, step))
    ensures Legal(run) && Enabled(Exec(run), step) && Exec(Then(run, step)) == Next(Exec(run), step)
  {
    hide Next, Enabled;
  }

  lemma SettledRecords(st: State, n: Name, startedAt: Time, a: Time, b: Time, c: Time)
    requires n in st.children && st.config.Valid() && !st.stopping
    ensures n in Settled(st, n, startedAt, a, b, c).children
    ensures var was, now := st.children[n], Settled(st, n, startedAt, a, b, c).children[n];
      && |now.exits| == |was.exits| + 1 && now.exits[..|was.exits|] == was.exits && now.starts == was.starts
      && var exit := now.exits[|was.exits|];
      && exit.startedAt == startedAt && exit.measuredAt == a && exit.recordedAt == b && exit.checkedAt == c
      && now.phase == (if exit.delay.Some? then Backoff(c, exit.delay.value) else Returned)
  {
    hide CrashLoop;
  }

  /** The wait after an exit may end exactly when its delay has passed, or when the supervisor is stopping. */
  lemma {:induction false} BackoffEndsIff(run: Run, n: Name)
    requires Legal(run) && n in Exec(run).children && Exec(run).children[n].phase.Backoff?
    ensures var st := Exec(run); var exits := st.children[n].exits;
      && exits != [] && exits[|exits| - 1].delay.Some?
      && (Enabled(st, BackoffEnds(n)) <==>
           st.stopping || exits[|exits| - 1].checkedAt + exits[|exits| - 1].delay.value <= st.now)
      && (Enabled(st, BackoffEnds(n)) ==> Next(st, BackoffEnds(n)).children[n].phase == AtTop)
  {
    hide Exec, CrashLoop, Streak, ExitSound, StartsSpaced, Quiet, Settled;
    ChildrenStaySound(run);
    assert ChildSound(Exec(run), n);
  }

  /** At the top of its loop a child starts a spawn at once, and is counted as started, unless the supervisor
      is stopping, when it returns. */
  lemma {:induction false} StartIffNotStopping(run: Run, n: Name)
    requires Legal(run) && n in Exec(run).children && Exec(run).children[n].phase == AtTop
    ensures Enabled(Exec(run), TryStart(n))
    ensures var was, now := Exec(run).children[n], Next(Exec(run), TryStart(n)).children[n];
      if Exec(run).stopping then now.phase == Returned && now.starts == was.starts
      else now.phase == Spawning(Exec(run).now, None) && now.starts == was.starts + [Exec(run).now]
  {
    hide Exec, CrashLoop, Streak, Quiet, Settled;
    ChildrenStaySound(run);
  }

  /** A start can go through: from the top of the loop, before shutdown, beginning a spawn, the birth of a new
      process and the return of the call leave the child running it, with the process alive and in the table
      under its name; while the call is pending it may fail instead. */
  lemma {:induction false} StartCanGoThrough(run: Run, n: Name, pid: Pid, a: Time, b: Time, c: Time)
    requires Legal(run) && !Exec(run).stopping && n in Exec(run).children && Exec(run).children[n].phase == AtTop
    requires pid !in Exec(run).born && Readings(Exec(run).now, a, b, c)
    ensures Legal(Then(Then(run, TryStart(n)), SpawnFails(n, a, b, c)))
    ensures var later := Then(Then(Then(run, TryStart(n)), Born(n, pid)), SpawnReturns(n));
      && Legal(later) && n in Exec(later).children && Exec(later).children[n].phase == Running(pid, Exec(run).now)
      && pid in Exec(later).alive && n in Exec(later).processes && Exec(later).processes[n] == pid
  {
    hide CrashLoop, Streak, ExitSound, StartsSpaced, PhaseFits, Quiet, Settled;
    ChildrenStaySound(run);
  }

  /** A death is seen: once the process a child runs is gone, its wait can return at any reading from now on,
      and then its entry leaves the table and no other does. */
  lemma {:induction false} DeathIsSeen(run: Run, n: Name, a: Time, b: Time, c: Time)
    requires Legal(run) && n in Exec(run).children && Exec(run).children[n].phase.Running? && Readings(Exec(run).now, a, b, c)
    ensures Legal(Then(run, WaitReturns(n, a, b, c))) <==> Exec(run).children[n].phase.pid !in Exec(run).alive
    ensures Exec(run).children[n].phase.pid !in Exec(run).alive ==>
      Exec(Then(run, WaitReturns(n, a, b, c))).processes == Exec(run).processes - {n}
  {
    hide CrashLoop, Streak, ExitSound, StartsSpaced, PhaseFits, Quiet;
    ChildrenStaySound(run);
  }

  // Starts can be added only by a child that is not degraded, before shutdown.
  lemma StartsFrozenStep(st: State, step: Step, n: Name)
    requires ChildrenSound(st) && Enabled(st, step) && n in st.children
    ensures n in Next(st, step).children
    ensures st.stopping || n in st.degraded ==> Next(st, step).children[n].starts == st.children[n].starts
    ensures (st.stopping ==> Next(st, step).stopping) && (n in st.degraded ==> n in Next(st, step).degraded)
  {
    hide CrashLoop, Streak, ExitSound, StartsSpaced, PhaseFits, Quiet;
    assert ChildSound(st, n);
  }

  /** Once a child is degraded, or shutdown has begun, that child never starts another spawn. */
  lemma {:induction false} StartsFrozen(run: Run, later: Run, n: Name)
    requires Legal(later) && Extends(run, later) && n in Exec(run).children
    requires Exec(run).stopping || n in Exec(run).degraded
    ensures n in Exec(later).children && Exec(later).children[n].starts == Exec(run).children[n].starts
    ensures (Exec(run).stopping ==> Exec(later).stopping) && (n in Exec(run).degraded ==> n in Exec(later).degraded)
  {
    hide Next, Enabled, ChildrenSound;
    if later != run {
      StartsFrozen(run, later.before, n);
      ChildrenStaySound(later.before);
      StartsFrozenStep(Exec(later.before), later.step, n);
    }
  }

  // The default schedule and window

  /** The delay after the j-th exit of a streak is the schedule's entry min(j-1, last). */
  lemma {:induction false} DelayFollowsStreak(run: Run, n: Name, k: nat)
    requires Legal(run) && n in Exec(run).children && k < |Exec(run).children[n].exits|
    ensures Exec(run).config.Valid()
    ensures var st := Exec(run); var exit := st.children[n].exits[k]; var j := Streak(st.children[n].exits, k, st.config);
      j >= 1 && (exit.delay.Some? ==>
        exit.delay.value == st.config.backoff[if j - 1 < |st.config.backoff| - 1 then j - 1 else |st.config.backoff| - 1])
  {
    hide Exec, CrashLoop, PhaseFits, StartsSpaced;
    ChildrenStaySound(run);
    assert ChildSound(Exec(run), n);
    assert ExitSound(Exec(run).children[n].exits, k, Exec(run).config);
    StreakPositive(Exec(run).children[n].exits, k, Exec(run).config);
  }

  /** A streak grows by an exit exactly when the uptime before it is at most the last entry of the schedule;
      a longer uptime begins a new one. */
  lemma {:induction false} StreakGrowsIff(exits: seq<Exit>, k: nat, config: Config)
    requires 1 <= k < |exits| && config.Valid()
    ensures var uptime := exits[k].measuredAt - exits[k].startedAt;
      && (Streak(exits, k, config) == Streak(exits, k - 1, config) + 1 <==> uptime <= config.backoff[|config.backoff| - 1])
      && (Streak(exits, k, config) == 1 <==> uptime > config.backoff[|config.backoff| - 1])
  {
    StreakPositive(exits, k - 1, config);
  }

  // One entry further in the schedule, or still the last one.
  predicate Advances(schedule: seq<Time>, was: Time, now: Time) {
    exists i :: 0 <= i < |schedule| && was == schedule[i] && now == schedule[if i + 1 < |schedule| then i + 1 else i]
  }

  /** The delay after the first exit, and after any uptime longer than the last entry of the schedule, is the
      first entry; after any other exit it is one entry further than the delay before, or the last one. */
  lemma {:induction false} DelayClimbsTheSchedule(run: Run, n: Name, k: nat)
    requires Legal(run) && n in Exec(run).children && k < |Exec(run).children[n].exits|
    requires Exec(run).children[n].exits[k].delay.Some?
    ensures var schedule := Exec(run).config.backoff; var exits := Exec(run).children[n].exits;
      && schedule != []
      && (k == 0 || exits[k].measuredAt - exits[k].startedAt > schedule[|schedule| - 1] ==> exits[k].delay.value == schedule[0])
      && (k > 0 ==> exits[k - 1].delay.Some?)
      && (k > 0 && exits[k].measuredAt - exits[k].startedAt <= schedule[|schedule| - 1] ==>
           Advances(schedule, exits[k - 1].delay.value, exits[k].delay.value))
  {
    hide Exec, CrashLoop, PhaseFits, StartsSpaced, Streak, Advances;
    DelayFollowsStreak(run, n, k);
    var config, exits := Exec(run).config, Exec(run).children[n].exits;
    if k == 0 {
      StreakAtMost(exits, 0, config);
    } else {
      ChildrenStaySound(run);
      assert ChildSound(Exec(run), n);
      assert ExitSound(exits, k - 1, config);
      StreakGrowsIff(exits, k, config);
      if exits[k].measuredAt - exits[k].startedAt <= config.backoff[|config.backoff| - 1] {
        DelayFollowsStreak(run, n, k - 1);
        OneFurther(config.backoff, Streak(exits, k - 1, config) - 1);
      }
    }
  }

  lemma OneFurther(schedule: seq<Time>, j: nat)
    requires schedule != []
    ensures Advances(schedule, schedule[if j < |schedule| - 1 then j else |schedule| - 1],
      schedule[if j + 1 < |schedule| - 1 then j + 1 else |schedule| - 1])
  {
    var i := if j < |schedule| - 1 then j else |schedule| - 1;
    assert schedule[i] == schedule[if j < |schedule| - 1 then j else |schedule| - 1];
  }

  /** With the defaults an uptime of more than 30 s brings the delay back to 1 s; otherwise it doubles, from
      16 s to 30 s, where it stays. */
  lemma {:induction false} DefaultDelays(run: Run, n: Name, k: nat)
    requires Legal(run) && n in Exec(run).children && Exec(run).config == DEFAULTS
    requires k < |Exec(run).children[n].exits| && Exec(run).children[n].exits[k].delay.Some?
    ensures var exits := Exec(run).children[n].exits;
      && (k == 0 || exits[k].measuredAt - exits[k].startedAt > 30.0 ==> exits[k].delay == Some(1.0))
      && (k > 0 ==> exits[k - 1].delay.Some?)
      && (k > 0 && exits[k].measuredAt - exits[k].startedAt <= 30.0 ==>
           exits[k].delay.value == if exits[k - 1].delay.value < 16.0 then 2.0 * exits[k - 1].delay.value else 30.0)
  {
    hide Exec, CrashLoop;
    DelayClimbsTheSchedule(run, n, k);
  }

  // Within a streak the next exit is recorded at least the delay later.
  lemma {:induction false} StreakGap(st: State, n: Name, k: nat)
    requires ChildrenSound(st) && n in st.children && 1 <= k < |st.children[n].exits| && Streak(st.children[n].exits, k, st.config) >= 2
    ensures var exits := st.children[n].exits;
      && Streak(exits, k - 1, st.config) == Streak(exits, k, st.config) - 1
      && exits[k].recordedAt - exits[k - 1].recordedAt >= st.config.Delay(Streak(exits, k, st.config) - 2)
  {
    hide CrashLoop, PhaseFits;
    assert ChildSound(st, n);
    assert ExitSound(st.children[n].exits, k - 1, st.config) && ExitSound(st.children[n].exits, k, st.config);
  }

  /** With the default settings a child is never given up at the eighth or a later exit of one streak: the
      backoff alone keeps any five of those exits at least 84 s apart. */
  lemma {:induction false} NeverDegradedLateInAStreak(run: Run, n: Name, k: nat)
    requires Legal(run) && n in Exec(run).children && Exec(run).config == DEFAULTS && k < |Exec(run).children[n].exits|
    requires Streak(Exec(run).children[n].exits, k, DEFAULTS) >= 8
    ensures k >= 4 && Exec(run).children[n].exits[k].recordedAt - Exec(run).children[n].exits[k - 4].recordedAt >= 84.0
    ensures Exec(run).children[n].exits[k].delay.Some?
  {
    hide Exec, Recent, PhaseFits, StartsSpaced, Streak;
    ChildrenStaySound(run);
    var st := Exec(run);
    var exits := st.children[n].exits;
    assert ChildSound(st, n);
    StreakAtMost(exits, k, DEFAULTS);
    StreakGap(st, n, k);
    StreakGap(st, n, k - 1);
    StreakGap(st, n, k - 2);
    StreakGap(st, n, k - 3);
    HistoryOrdered(st, n);
    PrefixOrdered(exits, k + 1);
    RecentAreLast(exits[..k + 1], exits[k].checkedAt, 60.0, 5);
    assert ExitSound(exits, k, DEFAULTS);
  }

  lemma {:induction false} StreakAtMost(exits: seq<Exit>, k: nat, config: Config)
    requires k < |exits| && config.Valid()
    ensures Streak(exits, k, config) <= k + 1
  {
    if k > 0 { StreakAtMost(exits, k - 1, config); }
  }

  // The time between two exits beyond the scheduled delay and the uptime: what the sleep and the loop overshoot.
  ghost function Overshoot(exits: seq<Exit>, i: nat, config: Config): Time
    requires i + 1 < |exits| && config.Valid()
  {
    exits[i + 1].startedAt - exits[i].recordedAt - config.Delay(i)
  }

  ghost function Uptime(exit: Exit): Time { exit.recordedAt - exit.startedAt }

  // The uptimes of starts 2 to 5.
  ghost function Uptimes(exits: seq<Exit>): Time
    requires |exits| >= 5
  {
    Uptime(exits[1]) + Uptime(exits[2]) + Uptime(exits[3]) + Uptime(exits[4])
  }

  // The four overshoots, and the time from recording the fifth exit to checking it.
  ghost function Overshoots(exits: seq<Exit>, config: Config): Time
    requires |exits| >= 5 && config.Valid()
  {
    Overshoot(exits, 0, config) + Overshoot(exits, 1, config) + Overshoot(exits, 2, config) + Overshoot(exits, 3, config)
    + (exits[4].checkedAt - exits[4].recordedAt)
  }

  // The exits before position k of an unbroken streak have the streak lengths 1, 2, ..., k.
  lemma {:induction false} UnbrokenStreak(exits: seq<Exit>, k: nat, i: nat, config: Config)
    requires i <= k < |exits| && config.Valid() && Streak(exits, k, config) == k + 1
    ensures Streak(exits, i, config) == i + 1
  {
    if i < k {
      StreakAtMost(exits, k - 1, config);
      UnbrokenStreak(exits, k - 1, i, config);
    }
  }

  // A sleep lasts at least its delay, so within a streak no overshoot is negative.
  lemma SleptLongEnough(st: State, n: Name, k: nat, i: nat)
    requires ChildrenSound(st) && n in st.children && i < k < |st.children[n].exits|
    requires Streak(st.children[n].exits, k, st.config) == k + 1
    ensures Overshoot(st.children[n].exits, i, st.config) >= 0.0
  {
    hide CrashLoop, PhaseFits, Streak;
    var exits := st.children[n].exits;
    assert ChildSound(st, n);
    assert ExitSound(exits, i, st.config);
    UnbrokenStreak(exits, k, i, st.config);
  }

  /** With the default settings, when the first five exits of a child form one streak, every start waited at
      least the delay before it, and the child is given up at the fifth exit exactly when the uptimes of
      starts 2 to 5 and the overshoots total less than 45 s; so 45 s of uptime alone keep it going. */
  lemma {:induction false} DegradedAtTheFifthOfAStreak(run: Run, n: Name)
    requires Legal(run) && n in Exec(run).children && Exec(run).config == DEFAULTS
    requires |Exec(run).children[n].exits| >= 5 && Streak(Exec(run).children[n].exits, 4, DEFAULTS) == 5
    ensures var st := Exec(run); var exits := st.children[n].exits;
      && (forall i :: 0 <= i < 4 ==> Overshoot(exits, i, DEFAULTS) >= 0.0 && Uptime(exits[i + 1]) >= 0.0)
      && (Uptimes(exits) + Overshoots(exits, DEFAULTS) < 45.0 <==> |exits| == 5 && n in st.degraded)
      && (Uptimes(exits) >= 45.0 ==> exits[4].delay == Some(16.0))
  {
    hide Exec, Recent, PhaseFits, StartsSpaced, Streak;
    ChildrenStaySound(run);
    DegradedAtTheFifthExit(run, n);
    var st := Exec(run);
    var exits := st.children[n].exits;
    assert ChildSound(st, n);
    forall i: nat | i < 4 ensures Overshoot(exits, i, DEFAULTS) >= 0.0 && Uptime(exits[i + 1]) >= 0.0 {
      SleptLongEnough(st, n, 4, i);
      assert ExitSound(exits, i + 1, DEFAULTS);
    }
    assert ExitSound(exits, 4, DEFAULTS);
    assert Overshoot(exits, 0, DEFAULTS) >= 0.0 && Overshoot(exits, 1, DEFAULTS) >= 0.0
      && Overshoot(exits, 2, DEFAULTS) >= 0.0 && Overshoot(exits, 3, DEFAULTS) >= 0.0;
  }

  /** With the default settings no child is given up before its fifth exit, and one is given up at the fifth
      exactly when less than a window lies between recording the first exit and checking the fifth, here
      written as the uptimes of starts 2 to 5 and what the waits took beyond the first four delays. Whether
      the exits form a streak does not matter to this. */
  lemma {:induction false} DegradedAtTheFifthExit(run: Run, n: Name)
    requires Legal(run) && n in Exec(run).children && Exec(run).config == DEFAULTS
    ensures var st := Exec(run); var exits := st.children[n].exits;
      && (n in st.degraded ==> |exits| >= 5)
      && (|exits| >= 5 ==>
           (Uptimes(exits) + Overshoots(exits, DEFAULTS) < 45.0 <==> |exits| == 5 && n in st.degraded))
  {
    hide Exec, Recent, PhaseFits, StartsSpaced, Streak;
    ChildrenStaySound(run);
    var st := Exec(run);
    var exits := st.children[n].exits;
    assert ChildSound(st, n);
    HistoryOrdered(st, n);
    if exits != [] {
      RecentAreLast(exits, exits[|exits| - 1].checkedAt, 60.0, 5);
      assert exits[..|exits|] == exits;
      assert ExitSound(exits, |exits| - 1, DEFAULTS);
    }
    if |exits| >= 5 {
      PrefixOrdered(exits, 5);
      RecentAreLast(exits[..5], exits[4].checkedAt, 60.0, 5);
      assert ExitSound(exits, 4, DEFAULTS);
      assert DEFAULTS.Delay(0) == 1.0 && DEFAULTS.Delay(1) == 2.0 && DEFAULTS.Delay(2) == 4.0 && DEFAULTS.Delay(3) == 8.0;
      assert Uptimes(exits) + Overshoots(exits, DEFAULTS) == exits[4].checkedAt - exits[0].recordedAt - 15.0;
    }
  }
}
