/** The process supervisor as a step system: a restart loop per child, with a backoff schedule and a
    crash-loop detector, racing with a two-phase shutdown. Clock readings inside one step are parameters,
    since time passes between them. A child is named by its spec, so the names are distinct. */
module Supervisor {
  import opened Outcomes

  type Name = string
  type Pid = nat
  type Time = real

  datatype Config = Config(backoff: seq<Time>, maxRestarts: nat, window: Time, shutdownTimeout: Time) {
    predicate Valid() {
      backoff != [] && maxRestarts >= 1 && window > 0.0 && forall i :: 0 <= i < |backoff| ==> backoff[i] >= 0.0
    }

    // The delay after the exit that makes this many failures in a row, counting from 0.
    function Delay(failures: nat): Time
      requires Valid()
    {
      backoff[if failures < |backoff| - 1 then failures else |backoff| - 1]
    }
  }

  const DEFAULTS := Config([1.0, 2.0, 4.0, 8.0, 16.0, 30.0], 5, 60.0, 5.0)

  // `born` is a process that exists although its spawn call has not returned yet.
  datatype Phase =
    | AtTop
    | Spawning(startedAt: Time, born: Option<Pid>)
    | Running(pid: Pid, startedAt: Time)
    | Backoff(since: Time, delay: Time)
    | Returned
    | Cancelled

  // One recorded exit: the three clock readings taken while handling it, and the delay chosen, if any.
  datatype Exit = Exit(startedAt: Time, measuredAt: Time, recordedAt: Time, checkedAt: Time, delay: Option<Time>)

  datatype Child = Child(phase: Phase, failures: nat, starts: seq<Time>, exits: seq<Exit>)

  datatype Shutdown = NotYet | Graceful(targets: set<Pid>, deadline: Time) | Yielding | Reaping(remaining: set<Pid>) | Done

  // `born`, `registered` and `quiet` are histories: the processes ever created, those ever entered in the
  // table, and whether shutdown was entered quietly.
  datatype State = State(
    config: Config, now: Time, children: map<Name, Child>, processes: map<Name, Pid>, degraded: set<Name>, stopping: bool,
    shutdown: Shutdown, alive: set<Pid>, born: set<Pid>, registered: set<Pid>, quiet: bool)

  datatype Step =
    | Tick(to: Time)
    | TryStart(name: Name)
    | Born(name: Name, pid: Pid)
    | SpawnReturns(name: Name)
    | SpawnFails(name: Name, measuredAt: Time, recordedAt: Time, checkedAt: Time)
    | Dies(pid: Pid)
    | WaitReturns(name: Name, measuredAt: Time, recordedAt: Time, checkedAt: Time)
    | BackoffEnds(name: Name)
    | CancelTask(name: Name)
    | BeginShutdown
    | GraceEnds
    | Escalate
    | ReapEnds

  const NEW_CHILD := Child(AtTop, 0, [], [])

  function Initial(config: Config, names: set<Name>): State {
    State(config, 0.0, map n | n in names :: NEW_CHILD, map[], {}, false, NotYet, {}, {}, {}, false)
  }

  predicate Readings(now: Time, a: Time, b: Time, c: Time) { now <= a <= b <= c }

  predicate Enabled(st: State, step: Step) {
    match step
    case Tick(to) => st.now <= to
    case TryStart(n) => n in st.children && st.children[n].phase == AtTop
    case Born(n, pid) =>
      n in st.children && st.children[n].phase.Spawning? && st.children[n].phase.born == None && pid !in st.born
    case SpawnReturns(n) => n in st.children && st.children[n].phase.Spawning? && st.children[n].phase.born.Some?
    case SpawnFails(n, a, b, c) =>
      n in st.children && st.children[n].phase.Spawning? && st.children[n].phase.born == None && Readings(st.now, a, b, c)
    case Dies(pid) => pid in st.alive
    case WaitReturns(n, a, b, c) =>
      n in st.children && st.children[n].phase.Running? && st.children[n].phase.pid !in st.alive && Readings(st.now, a, b, c)
    case BackoffEnds(n) =>
      n in st.children && st.children[n].phase.Backoff?
      && (st.stopping || st.children[n].phase.since + st.children[n].phase.delay <= st.now)
    case CancelTask(n) => n in st.children && !st.children[n].phase.Returned? && !st.children[n].phase.Cancelled?
    case BeginShutdown => true
    case GraceEnds => st.shutdown.Graceful? && (st.shutdown.targets !! st.alive || st.shutdown.deadline <= st.now)
    case Escalate => st.shutdown == Yielding
    case ReapEnds => st.shutdown.Reaping? && st.shutdown.remaining !! st.alive
  }

  // Crash loops, over the whole history of a child's exits

  // How many exits were recorded less than a window before `at`.
  function Recent(exits: seq<Exit>, at: Time, window: Time): nat {
    if exits == [] then 0 else
      var n := |exits| - 1;
      Recent(exits[..n], at, window) + if at - exits[n].recordedAt < window then 1 else 0
  }

  predicate CrashLoop(exits: seq<Exit>, at: Time, config: Config) {
    Recent(exits, at, config.window) >= config.maxRestarts
  }

  function LastDelay(config: Config): Time
    requires config.Valid()
  {
    config.backoff[|config.backoff| - 1]
  }

  // What happens once a child is known to be gone.
  function Settled(st: State, n: Name, startedAt: Time, measuredAt: Time, recordedAt: Time, checkedAt: Time): State
    requires n in st.children && st.config.Valid()
  {
    var child := st.children[n];
    if st.stopping then st.(children := st.children[n := child.(phase := Returned)]) else
      var failures := if measuredAt - startedAt > LastDelay(st.config) then 0 else child.failures;
      var exit := Exit(startedAt, measuredAt, recordedAt, checkedAt, None);
      if CrashLoop(child.exits + [exit], checkedAt, st.config) then
        st.(now := checkedAt, degraded := st.degraded + {n},
            children := st.children[n := child.(phase := Returned, failures := failures, exits := child.exits + [exit])])
      else
        var delay := st.config.Delay(failures);
        st.(now := checkedAt,
            children := st.children[n := child.(
              phase := Backoff(checkedAt, delay), failures := failures + 1, exits := child.exits + [exit.(delay := Some(delay))])])
  }

  function SetPhase(st: State, n: Name, phase: Phase): State
    requires n in st.children
  {
    st.(children := st.children[n := st.children[n].(phase := phase)])
  }

  // Every live process is in the table, and no spawn call can still create one.
  predicate Quiet(st: State) {
    && st.alive <= st.processes.Values
    && (forall n :: n in st.children && st.children[n].phase.Spawning? ==> st.children[n].phase.born.Some?)
  }

  function Next(st: State, step: Step): State {
    if !Enabled(st, step) || !st.config.Valid() then st else
      match step
      case Tick(to) => st.(now := to)
      case TryStart(n) =>
        if st.stopping then SetPhase(st, n, Returned)
        else st.(children := st.children[n := st.children[n].(
          phase := Spawning(st.now, None), starts := st.children[n].starts + [st.now])])
      case Born(n, pid) =>
        SetPhase(st, n, st.children[n].phase.(born := Some(pid))).(alive := st.alive + {pid}, born := st.born + {pid})
      case SpawnReturns(n) =>
        var pid := st.children[n].phase.born.value;
        SetPhase(st, n, Running(pid, st.children[n].phase.startedAt)).(
          processes := st.processes[n := pid], registered := st.registered + {pid})
      case SpawnFails(n, a, b, c) => Settled(st, n, st.children[n].phase.startedAt, a, b, c)
      case Dies(pid) => st.(alive := st.alive - {pid})
      case WaitReturns(n, a, b, c) =>
        Settled(st.(processes := st.processes - {n}), n, st.children[n].phase.startedAt, a, b, c)
      case BackoffEnds(n) => SetPhase(st, n, AtTop)
      case CancelTask(n) => SetPhase(st, n, Cancelled)
      case BeginShutdown =>
        if st.stopping then st else
          st.(stopping := true, quiet := Quiet(st),
              shutdown := if st.processes == map[] then Done else Graceful(st.processes.Values, st.now + st.config.shutdownTimeout))
      case GraceEnds => st.(shutdown := Yielding)
      case Escalate => st.(shutdown := Reaping(st.processes.Values))
      case ReapEnds => st.(shutdown := Done)
  }

  // Runs

  datatype Run = Start(config: Config, names: set<Name>) | Then(before: Run, step: Step)

  function Exec(run: Run): State {
    match run
    case Start(config, names) => Initial(config, names)
    case Then(before, step) => Next(Exec(before), step)
  }

  predicate Legal(run: Run) {
    match run
    case Start(config, _) => config.Valid()
    case Then(before, step) => Legal(before) && Enabled(Exec(before), step)
  }

  ghost predicate Extends(run: Run, later: Run) { later == run || (later.Then? && Extends(run, later.before)) }

  // What every step keeps of one child

  // The length of the streak of failures that ends with exit k: a long enough uptime begins a new one.
  function Streak(exits: seq<Exit>, k: nat, config: Config): nat
    requires k < |exits| && config.Valid()
  {
    if k == 0 || exits[k].measuredAt - exits[k].startedAt > LastDelay(config) then 1 else Streak(exits, k - 1, config) + 1
  }

  ghost predicate ExitSound(exits: seq<Exit>, k: nat, config: Config)
    requires k < |exits| && config.Valid()
  {
    var exit := exits[k];
    && exit.startedAt <= exit.measuredAt <= exit.recordedAt <= exit.checkedAt
    && (exit.delay.Some? <==> !CrashLoop(exits[..k + 1], exit.checkedAt, config))
    && (exit.delay.Some? ==> exit.delay.value == config.Delay(Streak(exits, k, config) - 1))
    && (k + 1 < |exits| ==> exit.delay.Some?)
  }

  // Start i+1 comes after exit i was checked, and at least its delay later.
  ghost predicate StartsSpaced(child: Child) {
    && |child.exits| <= |child.starts| <= |child.exits| + 1
    && (forall i :: 0 <= i < |child.exits| ==> child.exits[i].startedAt == child.starts[i])
    && (forall i :: 0 <= i < |child.exits| && i + 1 < |child.starts| ==>
         child.exits[i].delay.Some? && child.starts[i + 1] >= child.exits[i].checkedAt + child.exits[i].delay.value)
  }

  ghost predicate PhaseFits(st: State, child: Child)
    requires st.config.Valid()
  {
    var exits := child.exits;
    && (child.phase.AtTop? || child.phase.Backoff? ==> |child.starts| == |exits|)
    && (child.phase.Spawning? || child.phase.Running? ==>
         |child.starts| == |exits| + 1 && child.starts[|exits|] == child.phase.startedAt)
    && (child.phase.Backoff? ==> exits != [] && exits[|exits| - 1].delay == Some(child.phase.delay))
    && (child.phase.Backoff? ==> exits != [] && exits[|exits| - 1].checkedAt == child.phase.since)
    && (child.phase.AtTop? && exits != [] ==> exits[|exits| - 1].delay.Some?)
    && (child.phase.AtTop? && exits != [] && !st.stopping ==>
         exits[|exits| - 1].checkedAt + exits[|exits| - 1].delay.value <= st.now)
    && (!child.phase.Returned? && !child.phase.Cancelled? ==>
         child.failures == if exits == [] then 0 else Streak(exits, |exits| - 1, st.config))
    && (!child.phase.Returned? && exits != [] ==> exits[|exits| - 1].delay.Some?)
    && (forall i :: 0 <= i < |child.starts| ==> child.starts[i] <= st.now)
    && (forall i :: 0 <= i < |exits| ==> exits[i].checkedAt <= st.now)
  }

  ghost predicate ChildSound(st: State, n: Name)
    requires n in st.children && st.config.Valid()
  {
    var child := st.children[n];
    && (forall k: nat :: k < |child.exits| ==> ExitSound(child.exits, k, st.config))
    && StartsSpaced(child)
    && PhaseFits(st, child)
    && (n in st.degraded <==> child.exits != [] && child.exits[|child.exits| - 1].delay == None)
    && (n in st.degraded ==> child.phase.Returned?)
  }

  ghost predicate SoundChild(st: State, n: Name) { n in st.children && st.config.Valid() && ChildSound(st, n) }

  ghost predicate ChildrenSound(st: State) {
    st.config.Valid() && (forall n :: n in st.children ==> ChildSound(st, n)) && st.degraded <= st.children.Keys
  }

  lemma {:induction false} StreakLocal(exits: seq<Exit>, more: seq<Exit>, k: nat, config: Config)
    requires k < |exits| && config.Valid()
    ensures Streak(exits + more, k, config) == Streak(exits, k, config)
  {
    if k > 0 { StreakLocal(exits, more, k - 1, config); }
  }

  // Recording one more exit.
  lemma ExitSoundMore(exits: seq<Exit>, exit: Exit, failures: nat, config: Config)
    requires config.Valid()
    requires forall k: nat :: k < |exits| ==> ExitSound(exits, k, config)
    requires forall k :: 0 <= k < |exits| ==> exits[k].delay.Some?
    requires exit.startedAt <= exit.measuredAt <= exit.recordedAt <= exit.checkedAt
    requires exit.delay.Some? <==> !CrashLoop(exits + [exit], exit.checkedAt, config)
    requires failures == if exits == [] then 0 else Streak(exits, |exits| - 1, config)
    requires exit.delay.Some? ==>
      exit.delay.value == config.Delay(if exit.measuredAt - exit.startedAt > LastDelay(config) then 0 else failures)
    ensures forall k: nat :: k <= |exits| ==> ExitSound(exits + [exit], k, config)
    ensures Streak(exits + [exit], |exits|, config) ==
      if exit.measuredAt - exit.startedAt > LastDelay(config) then 1 else failures + 1
  {
    hide CrashLoop;
    var all := exits + [exit];
    assert all[..|all|] == all;
    if exits != [] { StreakLocal(exits, [exit], |exits| - 1, config); }
    forall k: nat | k < |exits| ensures ExitSound(all, k, config) {
      assert ExitSound(exits, k, config);
      StreakLocal(exits, [exit], k, config);
      assert all[..k + 1] == exits[..k + 1];
    }
  }

  // The delay of an exit does not matter to crash loops.
  lemma {:induction false} RecentIgnoresDelay(a: seq<Exit>, b: seq<Exit>, at: Time, window: Time)
    requires |a| == |b| && forall i :: 0 <= i < |a| ==> a[i].recordedAt == b[i].recordedAt
    ensures Recent(a, at, window) == Recent(b, at, window)
  {
    if a != [] { RecentIgnoresDelay(a[..|a| - 1], b[..|b| - 1], at, window); }
  }

  lemma SettledChildSound(st: State, n: Name, startedAt: Time, measuredAt: Time, recordedAt: Time, checkedAt: Time)
    requires ChildrenSound(st) && n in st.children && Readings(st.now, measuredAt, recordedAt, checkedAt)
    requires (st.children[n].phase.Spawning? || st.children[n].phase.Running?) && startedAt == st.children[n].phase.startedAt
    ensures var after := Settled(st, n, startedAt, measuredAt, recordedAt, checkedAt);
      after.config == st.config && after.children.Keys == st.children.Keys && ChildSound(after, n) && st.now <= after.now
  {
    hide CrashLoop, Streak, ExitSound, StartsSpaced, PhaseFits;
    var child := st.children[n];
    var after := Settled(st, n, startedAt, measuredAt, recordedAt, checkedAt);
    if st.stopping {
      ReturnSound(st, after, n);
    } else {
      var undecided := Exit(startedAt, measuredAt, recordedAt, checkedAt, None);
      var failures := if measuredAt - startedAt > LastDelay(st.config) then 0 else child.failures;
      var decided := undecided.(delay := Some(st.config.Delay(failures)));
      CrashLoopIgnoresDelay(child.exits + [undecided], child.exits + [decided], checkedAt, st.config);
      ExitChildSound(st, after, n, if CrashLoop(child.exits + [undecided], checkedAt, st.config) then undecided else decided, failures);
    }
  }

  lemma ReturnSound(st: State, after: State, n: Name)
    requires SoundChild(st, n) && (st.children[n].phase.Spawning? || st.children[n].phase.Running?)
    requires after == st.(children := st.children[n := st.children[n].(phase := Returned)])
    ensures ChildSound(after, n)
  {
    hide CrashLoop, Streak, ExitSound;
  }

  lemma ExitChildSound(st: State, after: State, n: Name, exit: Exit, failures: nat)
    requires SoundChild(st, n) && !st.stopping
    requires (st.children[n].phase.Spawning? || st.children[n].phase.Running?) && exit.startedAt == st.children[n].phase.startedAt
    requires Readings(st.now, exit.measuredAt, exit.recordedAt, exit.checkedAt)
    requires failures == if exit.measuredAt - exit.startedAt > LastDelay(st.config) then 0 else st.children[n].failures
    requires exit.delay.Some? <==> !CrashLoop(st.children[n].exits + [exit], exit.checkedAt, st.config)
    requires exit.delay.Some? ==> exit.delay.value == st.config.Delay(failures)
    requires after.config == st.config && after.now == exit.checkedAt && after.stopping == st.stopping
    requires after.degraded == if exit.delay == None then st.degraded + {n} else st.degraded
    requires after.children == st.children[n := st.children[n].(
      phase := if exit.delay == None then Returned else Backoff(exit.checkedAt, exit.delay.value),
      failures := if exit.delay == None then failures else failures + 1,
      exits := st.children[n].exits + [exit])]
    ensures ChildSound(after, n)
  {
    hide CrashLoop, Streak, ExitSound;
    ExitSoundMore(st.children[n].exits, exit, st.children[n].failures, st.config);
  }

  lemma CrashLoopIgnoresDelay(a: seq<Exit>, b: seq<Exit>, at: Time, config: Config)
    requires |a| == |b| && forall i :: 0 <= i < |a| ==> a[i].recordedAt == b[i].recordedAt
    ensures CrashLoop(a, at, config) == CrashLoop(b, at, config)
  {
    RecentIgnoresDelay(a, b, at, config.window);
  }

  // A child that a step does not touch stays sound as time goes on.
  lemma UntouchedSound(st: State, after: State, n: Name)
    requires SoundChild(st, n) && n in after.children && after.children[n] == st.children[n]
    requires after.config == st.config && st.now <= after.now && (st.stopping ==> after.stopping)
    requires n in st.degraded <==> n in after.degraded
    ensures ChildSound(after, n)
  {
    hide CrashLoop, Streak, ExitSound;
  }

  lemma PhaseSound(st: State, after: State, n: Name)
    requires SoundChild(st, n) && after.config == st.config && st.now == after.now && st.stopping == after.stopping
    requires st.degraded == after.degraded && n in after.children && after.children[n] == st.children[n].(phase := after.children[n].phase)
    requires var was, now := st.children[n].phase, after.children[n].phase;
      || (was == AtTop && st.stopping && now == Returned)
      || (was.Spawning? && now.Spawning? && was.startedAt == now.startedAt)
      || (was.Spawning? && now.Running? && was.startedAt == now.startedAt)
      || (was.Backoff? && now == AtTop && (st.stopping || was.since + was.delay <= st.now))
      || (!was.Returned? && now == Cancelled)
    ensures ChildSound(after, n)
  {
    hide CrashLoop, Streak, ExitSound;
  }

  lemma StartSound(st: State, n: Name)
    requires SoundChild(st, n) && st.children[n].phase == AtTop && !st.stopping
    ensures ChildSound(Next(st, TryStart(n)), n)
  {
    hide CrashLoop, Streak, ExitSound;
  }

  lemma {:induction false} NextKeepsChildren(st: State, step: Step)
    requires ChildrenSound(st) && Enabled(st, step)
    ensures ChildrenSound(Next(st, step))
  {
    hide CrashLoop, Streak, ExitSound, StartsSpaced, PhaseFits, ChildSound, Quiet, Settled;
    var after := Next(st, step);
    match step
    case TryStart(n) => if st.stopping { PhaseSound(st, after, n); } else { StartSound(st, n); } Others(st, after, n);
    case Born(n, _) => PhaseSound(st, after, n); Others(st, after, n);
    case SpawnReturns(n) => PhaseSound(st, after, n); Others(st, after, n);
    case SpawnFails(n, a, b, c) => SettledSound(st, n, st.children[n].phase.startedAt, a, b, c);
    case WaitReturns(n, a, b, c) =>
      var popped := st.(processes := st.processes - {n});
      Everyone(st, popped);
      SettledSound(popped, n, st.children[n].phase.startedAt, a, b, c);
    case BackoffEnds(n) => PhaseSound(st, after, n); Others(st, after, n);
    case CancelTask(n) => PhaseSound(st, after, n); Others(st, after, n);
    case _ => Everyone(st, after);
  }

  lemma Everyone(st: State, after: State)
    requires ChildrenSound(st) && after.children == st.children && after.degraded == st.degraded
    requires after.config == st.config && st.now <= after.now && (st.stopping ==> after.stopping)
    ensures ChildrenSound(after)
  {
    hide CrashLoop, Streak, ExitSound, StartsSpaced, PhaseFits, ChildSound;
    forall n | n in after.children ensures ChildSound(after, n) { UntouchedSound(st, after, n); }
  }

  lemma Others(st: State, after: State, n: Name)
    requires ChildrenSound(st) && n in st.children && SoundChild(after, n)
    requires after.children.Keys == st.children.Keys && after.children == st.children[n := after.children[n]]
    requires after.config == st.config && st.now <= after.now && (st.stopping ==> after.stopping)
    requires after.degraded == st.degraded || after.degraded == st.degraded + {n}
    ensures ChildrenSound(after)
  {
    hide CrashLoop, Streak, ExitSound, StartsSpaced, PhaseFits, ChildSound;
    forall m | m in after.children ensures ChildSound(after, m) { if m != n { UntouchedSound(st, after, m); } }
  }

  lemma SettledSound(st: State, n: Name, startedAt: Time, measuredAt: Time, recordedAt: Time, checkedAt: Time)
    requires ChildrenSound(st) && n in st.children && Readings(st.now, measuredAt, recordedAt, checkedAt)
    requires (st.children[n].phase.Spawning? || st.children[n].phase.Running?) && startedAt == st.children[n].phase.startedAt
    ensures ChildrenSound(Settled(st, n, startedAt, measuredAt, recordedAt, checkedAt))
  {
    hide CrashLoop, Streak, ExitSound, StartsSpaced, PhaseFits, ChildSound;
    SettledChildSound(st, n, startedAt, measuredAt, recordedAt, checkedAt);
    Others(st, Settled(st, n, startedAt, measuredAt, recordedAt, checkedAt), n);
  }

  lemma {:induction false} ChildrenStaySound(run: Run)
    requires Legal(run)
    ensures ChildrenSound(Exec(run))
  {
    hide CrashLoop, Streak, ExitSound, Next, Enabled;
    if run.Then? {
      ChildrenStaySound(run.before);
      NextKeepsChildren(Exec(run.before), run.step);
    }
  }
}
