/** The table of running processes and the two phases of shutdown. */
module ShutdownSafety {
  import opened Outcomes
  import opened Supervisor
  import Sorting

  ghost predicate TableSound(st: State) {
    && (forall n :: n in st.processes ==> n in st.children && Holds(st.children[n].phase, st.processes[n]))
    && (forall n :: n in st.children && st.children[n].phase.Running? ==> n in st.processes && st.processes[n] == st.children[n].phase.pid)
    && st.alive * st.registered <= st.processes.Values
    && st.registered <= st.born
    && (forall n :: n in st.children && st.children[n].phase.Spawning? && st.children[n].phase.born.Some? ==>
         st.children[n].phase.born.value in st.born)
  }

  // An entry belongs to a child that waits for that process, or whose task was cancelled meanwhile.
  predicate Holds(phase: Phase, pid: Pid) { phase == Cancelled || (phase.Running? && phase.pid == pid) }

  ghost predicate ShutdownSound(st: State) {
    && (st.stopping <==> st.shutdown != NotYet)
    && (st.stopping && st.quiet ==> Quiet(st))
    && (st.shutdown.Reaping? && st.quiet ==> st.alive <= st.shutdown.remaining)
    && (st.shutdown.Done? && st.quiet ==> st.alive == {})
  }

  lemma SettledTable(st: State, n: Name, startedAt: Time, a: Time, b: Time, c: Time)
    requires n in st.children && st.config.Valid()
    ensures var after := Settled(st, n, startedAt, a, b, c);
      && after.processes == st.processes && after.alive == st.alive && after.registered == st.registered && after.born == st.born
      && after.stopping == st.stopping && after.shutdown == st.shutdown && after.quiet == st.quiet
      && after.children.Keys == st.children.Keys
      && (forall m :: m in st.children && m != n ==> after.children[m] == st.children[m])
      && (after.children[n].phase.Returned? || after.children[n].phase.Backoff?)
  {
  }

  lemma TableStep(st: State, step: Step)
    requires TableSound(st) && st.config.Valid() && Enabled(st, step)
    ensures TableSound(Next(st, step))
  {
    hide Settled, Quiet, TableSound;
    match step
    case WaitReturns(n, a, b, c) => PopKeepsTable(st, step, n, a, b, c);
    case SpawnFails(n, a, b, c) =>
      SettledTable(st, n, st.children[n].phase.startedAt, a, b, c);
      PhaseKeepsTable(st, Next(st, step), n);
    case SpawnReturns(n) => RegisterKeepsTable(st, n);
    case TryStart(n) => PhaseKeepsTable(st, Next(st, step), n);
    case Born(n, _) => PhaseKeepsTable(st, Next(st, step), n);
    case BackoffEnds(n) => PhaseKeepsTable(st, Next(st, step), n);
    case CancelTask(n) => PhaseKeepsTable(st, Next(st, step), n);
    case _ => SameTable(st, Next(st, step));
  }

  lemma SameTable(st: State, after: State)
    requires TableSound(st) && after.children == st.children && after.processes == st.processes
    requires after.registered == st.registered && after.born == st.born && after.alive <= st.alive
    ensures TableSound(after)
  {
  }

  // A child that is neither entering nor leaving the table.
  lemma PhaseKeepsTable(st: State, after: State, n: Name)
    requires TableSound(st) && n in st.children && after.children.Keys == st.children.Keys
    requires forall m :: m in st.children && m != n ==> after.children[m] == st.children[m]
    requires after.children[n].phase == Cancelled
      || (st.children[n].phase != Cancelled && !st.children[n].phase.Running? && !after.children[n].phase.Running?)
    requires after.children[n].phase.Spawning? && after.children[n].phase.born.Some? ==> after.children[n].phase.born.value in after.born
    requires after.processes == st.processes && after.registered == st.registered && st.born <= after.born
    requires after.alive <= st.alive + (after.born - st.born)
    ensures TableSound(after)
  {
  }

  lemma RegisterKeepsTable(st: State, n: Name)
    requires TableSound(st) && st.config.Valid() && Enabled(st, SpawnReturns(n))
    ensures TableSound(Next(st, SpawnReturns(n)))
  {
    var after := Next(st, SpawnReturns(n));
    assert n in after.processes && after.processes[n] in after.processes.Values;
    forall pid | pid in after.alive * after.registered ensures pid in after.processes.Values {
      if pid in st.registered {
        assert pid in st.processes.Values;
        var m :| m in st.processes && st.processes[m] == pid;
        assert m in after.processes && after.processes[m] == pid;
      }
    }
  }

  lemma PopKeepsTable(st: State, step: Step, n: Name, a: Time, b: Time, c: Time)
    requires TableSound(st) && st.config.Valid() && Enabled(st, step) && step == WaitReturns(n, a, b, c)
    ensures TableSound(Next(st, step))
    ensures st.alive <= st.processes.Values ==> st.alive <= (st.processes - {n}).Values
  {
    hide Settled;
    SettledTable(st.(processes := st.processes - {n}), n, st.children[n].phase.startedAt, a, b, c);
    forall pid | pid in st.alive && pid in st.processes.Values ensures pid in (st.processes - {n}).Values {
      var m :| m in st.processes && st.processes[m] == pid;
      assert m in st.processes - {n} && (st.processes - {n})[m] == pid;
    }
  }

  lemma ShutdownStep(st: State, step: Step)
    requires TableSound(st) && ShutdownSound(st) && st.config.Valid() && Enabled(st, step)
    ensures ShutdownSound(Next(st, step))
  {
    hide Settled, TableSound;
    match step
    case WaitReturns(n, a, b, c) =>
      PopKeepsTable(st, step, n, a, b, c);
      SettledTable(st.(processes := st.processes - {n}), n, st.children[n].phase.startedAt, a, b, c);
    case SpawnFails(n, a, b, c) => SettledTable(st, n, st.children[n].phase.startedAt, a, b, c);
    case SpawnReturns(n) => RegisterGrowsTable(st, n);
    case _ =>
  }

  lemma RegisterGrowsTable(st: State, n: Name)
    requires TableSound(st) && st.config.Valid() && Enabled(st, SpawnReturns(n))
    ensures st.processes.Values <= Next(st, SpawnReturns(n)).processes.Values
  {
    var after := Next(st, SpawnReturns(n));
    assert n !in st.processes;
    forall pid | pid in st.processes.Values ensures pid in after.processes.Values {
      var m :| m in st.processes && st.processes[m] == pid;
      assert m in after.processes && after.processes[m] == pid;
    }
  }

  lemma ConfigFixed(st: State, step: Step)
    ensures Next(st, step).config == st.config
  {
    hide CrashLoop, Quiet;
  }

  lemma {:induction false} RunsAreSound(run: Run)
    requires Legal(run)
    ensures Exec(run).config.Valid() && TableSound(Exec(run)) && ShutdownSound(Exec(run))
  {
    hide Next, Enabled;
    if run.Then? {
      RunsAreSound(run.before);
      ConfigFixed(Exec(run.before), run.step);
      TableStep(Exec(run.before), run.step);
      ShutdownStep(Exec(run.before), run.step);
    }
  }

  /** A live process that was ever entered in the table is still there, under any interleaving, also after
      its task was cancelled. */
  lemma {:induction false} LiveProcessesStayRegistered(run: Run, pid: Pid)
    requires Legal(run) && pid in Exec(run).alive && pid in Exec(run).registered
    ensures exists n :: n in Exec(run).processes && Exec(run).processes[n] == pid
  {
    hide Exec;
    RunsAreSound(run);
    assert pid in Exec(run).processes.Values;
  }

  // What quietness at the entry is good for.
  lemma {:induction false} ShutdownLeavesNothingAlive(run: Run)
    requires Legal(run) && Exec(run).shutdown == Done && Exec(run).quiet
    ensures Exec(run).alive == {}
  {
    hide Exec;
    RunsAreSound(run);
  }

  // Exactly when nothing survives

  // Shutdown begins here; whatever happens from now on, nothing is alive when it returns.
  ghost predicate NothingSurvives(run: Run) {
    forall later :: Legal(later) && Extends(Then(run, BeginShutdown), later) && Exec(later).shutdown == Done ==> Exec(later).alive == {}
  }

  /** Entered after any legal run, shutdown leaves nothing alive under every continuation if and only if, when
      it is entered, every live process is in the table and no spawn call can still create one. */
  lemma {:induction false} NothingSurvivesIff(run: Run)
    requires Legal(run) && !Exec(run).stopping
    ensures NothingSurvives(run) <==> Quiet(Exec(run))
  {
    hide Exec, Next, Enabled, Quiet, Legal, Extends;
    if Quiet(Exec(run)) {
      forall later | Legal(later) && Extends(Then(run, BeginShutdown), later) && Exec(later).shutdown == Done
        ensures Exec(later).alive == {}
      {
        QuietEntryLeavesNothing(run, later);
      }
    } else {
      var later := Survivor(run);
    }
  }

  lemma {:induction false} QuietEntryLeavesNothing(run: Run, later: Run)
    requires Legal(run) && !Exec(run).stopping && Quiet(Exec(run))
    requires Legal(later) && Extends(Then(run, BeginShutdown), later) && Exec(later).shutdown == Done
    ensures Exec(later).alive == {}
  {
    hide Exec, Next, Enabled, Quiet;
    RunsAreSound(run);
    Entered(Exec(run));
    ExecThen(run, BeginShutdown);
    QuietStays(Then(run, BeginShutdown), later);
    ShutdownLeavesNothingAlive(later);
  }

  lemma Entered(st: State)
    requires st.config.Valid() && !st.stopping
    ensures Enabled(st, BeginShutdown)
    ensures var after := Next(st, BeginShutdown);
      && after.stopping && after.quiet == Quiet(st) && after.alive == st.alive && after.born == st.born
      && after.processes == st.processes && after.children == st.children && after.config == st.config
      && (after.shutdown == Done || (after.shutdown.Graceful? && after.shutdown.targets == st.processes.Values))
  {
    hide Quiet;
  }

  // Some continuation of an entry that was not quiet ends with a process alive.
  lemma {:induction false} Survivor(run: Run) returns (later: Run)
    requires Legal(run) && !Exec(run).stopping && !Quiet(Exec(run))
    ensures Legal(later) && Extends(Then(run, BeginShutdown), later) && Exec(later).shutdown == Done && Exec(later).alive != {}
  {
    hide Exec, Next, Enabled, Legal;
    RunsAreSound(run);
    var st := Exec(run);
    Entered(st);
    ExecThen(run, BeginShutdown);
    OneMoreStep(run, BeginShutdown);
    var entered := Then(run, BeginShutdown);
    if !(st.alive <= st.processes.Values) {
      var pid :| pid in st.alive && pid !in st.processes.Values;
      later := Finished(entered, {pid});
    } else {
      var n :| n in st.children && st.children[n].phase.Spawning? && st.children[n].phase.born == None;
      var finished := Finished(entered, {});
      later := LateBirth(finished, n);
      ExtendsMore(entered, finished, later);
    }
  }

  lemma OneMoreStep(run: Run, step: Step)
    requires Legal(run) && Enabled(Exec(run), step)
    ensures Legal(Then(run, step)) && Extends(run, Then(run, step))
  {
    hide Exec, Enabled;
    assert Extends(run, run);
  }

  lemma {:induction false} ExtendsMore(a: Run, b: Run, c: Run)
    requires Extends(a, b) && Extends(b, c)
    ensures Extends(a, c)
  {
    if c != b { ExtendsMore(a, b, c.before); }
  }

  // Deaths change nothing but who is alive.
  lemma {:induction false} Deaths(run: Run, keep: set<Pid>) returns (later: Run)
    requires Legal(run) && Exec(run).config.Valid() && keep <= Exec(run).alive
    ensures Legal(later) && Extends(run, later) && Exec(later) == Exec(run).(alive := keep)
    decreases |Exec(run).alive|
  {
    hide Exec, Next, Enabled, Legal;
    if Exec(run).alive == keep {
      later := run;
      assert Extends(run, run);
    } else {
      var pid := Extra(Exec(run).alive, keep);
      OneDies(Exec(run), pid);
      OneMoreStep(run, Dies(pid));
      ExecThen(run, Dies(pid));
      later := Deaths(Then(run, Dies(pid)), keep);
      ExtendsMore(run, Then(run, Dies(pid)), later);
    }
  }

  lemma Extra(pids: set<Pid>, keep: set<Pid>) returns (pid: Pid)
    requires keep <= pids && pids != keep
    ensures pid in pids && pid !in keep
  {
    pid :| pid in pids && pid !in keep;
  }

  lemma OneDies(st: State, pid: Pid)
    requires pid in st.alive && st.config.Valid()
    ensures Enabled(st, Dies(pid)) && Next(st, Dies(pid)) == st.(alive := st.alive - {pid})
  {
  }

  lemma {:induction false} Finished(run: Run, keep: set<Pid>) returns (later: Run)
    requires Legal(run) && Exec(run).config.Valid() && keep <= Exec(run).alive && keep !! Exec(run).processes.Values
    requires Exec(run).shutdown == Done
      || (Exec(run).shutdown.Graceful? && Exec(run).shutdown.targets == Exec(run).processes.Values)
    ensures Legal(later) && Extends(run, later) && Exec(later) == Exec(run).(alive := keep, shutdown := Done)
  {
    hide Exec, Next, Enabled, Legal;
    later := Deaths(run, keep);
    if Exec(run).shutdown != Done {
      var dead := later;
      Ends(Exec(dead));
      OneMoreStep(dead, GraceEnds);
      ExecThen(dead, GraceEnds);
      var graced := Then(dead, GraceEnds);
      OneMoreStep(graced, Escalate);
      ExecThen(graced, Escalate);
      var escalated := Then(graced, Escalate);
      OneMoreStep(escalated, ReapEnds);
      ExecThen(escalated, ReapEnds);
      later := Then(escalated, ReapEnds);
      ExtendsMore(dead, graced, escalated);
      ExtendsMore(dead, escalated, later);
      ExtendsMore(run, dead, later);
    }
  }

  // With every target dead, the rest of shutdown is three steps.
  lemma Ends(st: State)
    requires st.config.Valid() && st.shutdown.Graceful? && st.shutdown.targets !! st.alive && st.processes.Values !! st.alive
    ensures Enabled(st, GraceEnds) && Enabled(Next(st, GraceEnds), Escalate)
    ensures Enabled(Next(Next(st, GraceEnds), Escalate), ReapEnds)
    ensures Next(Next(Next(st, GraceEnds), Escalate), ReapEnds) == st.(shutdown := Done)
  {
  }

  // A spawn call that was pending all along makes its process after shutdown has returned.
  lemma LateBirth(run: Run, n: Name) returns (later: Run)
    requires Legal(run) && Exec(run).config.Valid()
    requires n in Exec(run).children && Exec(run).children[n].phase.Spawning? && Exec(run).children[n].phase.born == None
    ensures Legal(later) && Extends(run, later) && Exec(later).shutdown == Exec(run).shutdown && Exec(later).alive != {}
  {
    hide Exec, Legal, Quiet, Settled;
    var pid := Fresh(Exec(run).born);
    OneMoreStep(run, Born(n, pid));
    ExecThen(run, Born(n, pid));
    later := Then(run, Born(n, pid));
    assert pid in Exec(later).alive;
  }

  lemma {:induction false} Fresh(pids: set<Pid>) returns (pid: Pid)
    ensures forall p :: p in pids ==> p < pid
    decreases |pids|
  {
    pid := 0;
    if pids != {} {
      var p := Sorting.Member(pids);
      var bound := Fresh(pids - {p});
      pid := if p < bound then bound else p + 1;
      forall q | q in pids ensures q < pid { assert q == p || q in pids - {p}; }
    }
  }

  // Unless a cancellation cut off a spawn call that had already made its process, a live process is in the
  // table or belongs to a pending spawn.

  predicate CutsOff(st: State, step: Step) {
    step.CancelTask? && step.name in st.children && st.children[step.name].phase.Spawning? && st.children[step.name].phase.born.Some?
  }

  predicate NoneCutOff(run: Run) { run.Then? ==> !CutsOff(Exec(run.before), run.step) && NoneCutOff(run.before) }

  predicate Pending(children: map<Name, Child>, pid: Pid) {
    exists n :: n in children && children[n].phase.Spawning? && children[n].phase.born == Some(pid)
  }

  ghost predicate Accounted(st: State) { forall pid :: pid in st.alive ==> pid in st.registered || Pending(st.children, pid) }

  lemma PendingStays(st: State, after: State, n: Name, pid: Pid)
    requires n in st.children && Pending(st.children, pid) && after.children.Keys == st.children.Keys
    requires forall m :: m in st.children && m != n ==> after.children[m] == st.children[m]
    requires st.children[n].phase.Spawning? && st.children[n].phase.born == Some(pid) ==> after.children[n].phase == st.children[n].phase
    ensures Pending(after.children, pid)
  {
    var m :| m in st.children && st.children[m].phase.Spawning? && st.children[m].phase.born == Some(pid);
    assert m in after.children && after.children[m].phase == st.children[m].phase;
  }

  lemma AccountedStep(st: State, step: Step)
    requires Accounted(st) && st.config.Valid() && Enabled(st, step) && !CutsOff(st, step)
    ensures Accounted(Next(st, step))
  {
    hide Settled, Quiet, Pending;
    var after := Next(st, step);
    match step
    case TryStart(n) => forall pid | Pending(st.children, pid) ensures Pending(after.children, pid) { PendingStays(st, after, n, pid); }
    case Born(n, pid) => BornAccounted(st, n, pid);
    case SpawnReturns(n) =>
      forall pid | Pending(st.children, pid) && pid != st.children[n].phase.born.value ensures Pending(after.children, pid) {
        PendingStays(st, after, n, pid);
      }
    case SpawnFails(n, a, b, c) =>
      SettledTable(st, n, st.children[n].phase.startedAt, a, b, c);
      forall pid | Pending(st.children, pid) ensures Pending(after.children, pid) { PendingStays(st, after, n, pid); }
    case WaitReturns(n, a, b, c) =>
      SettledTable(st.(processes := st.processes - {n}), n, st.children[n].phase.startedAt, a, b, c);
      forall pid | Pending(st.children, pid) ensures Pending(after.children, pid) { PendingStays(st, after, n, pid); }
    case BackoffEnds(n) => forall pid | Pending(st.children, pid) ensures Pending(after.children, pid) { PendingStays(st, after, n, pid); }
    case CancelTask(n) => forall pid | Pending(st.children, pid) ensures Pending(after.children, pid) { PendingStays(st, after, n, pid); }
    case _ =>
  }

  lemma BornAccounted(st: State, n: Name, pid: Pid)
    requires Accounted(st) && st.config.Valid() && Enabled(st, Born(n, pid))
    ensures Accounted(Next(st, Born(n, pid)))
  {
    var after := Next(st, Born(n, pid));
    forall p | p in after.alive ensures p in after.registered || Pending(after.children, p) {
      if p == pid {
        assert n in after.children && after.children[n].phase.born == Some(pid);
      } else if p !in st.registered {
        PendingStays(st, after, n, p);
      }
    }
  }

  lemma {:induction false} RunsAreAccounted(run: Run)
    requires Legal(run) && NoneCutOff(run)
    ensures Accounted(Exec(run))
  {
    hide Next, Enabled, Accounted;
    if run.Then? {
      RunsAreAccounted(run.before);
      RunsAreSound(run.before);
      AccountedStep(Exec(run.before), run.step);
    } else {
      NothingAlive(run);
    }
  }

  lemma NothingAlive(run: Run)
    requires run.Start?
    ensures Accounted(Exec(run))
  {
  }

  // Whether shutdown was entered quietly is settled then.
  lemma {:induction false} QuietStays(run: Run, later: Run)
    requires Legal(later) && Extends(run, later) && Exec(run).stopping && Exec(run).quiet
    ensures Exec(later).stopping && Exec(later).quiet
  {
    hide Next, Enabled;
    if later != run {
      QuietStays(run, later.before);
      QuietStaysStep(Exec(later.before), later.step);
    }
  }

  lemma QuietStaysStep(st: State, step: Step)
    requires st.stopping && st.quiet
    ensures Next(st, step).stopping && Next(st, step).quiet
  {
    hide CrashLoop, Quiet;
  }

  /** If shutdown is entered with no spawn pending, then no process is alive when it returns, whatever happens
      in between, whether or not the graceful wait times out, and whatever children were cancelled before, as
      at the program's own exit; only a cancellation that cuts off a spawn call after its process was made is
      excluded. */
  lemma {:induction false} NoPendingSpawnNoSurvivor(run: Run)
    requires Legal(run) && NoneCutOff(run) && !Exec(run).stopping
    requires forall n :: n in Exec(run).children ==> !Exec(run).children[n].phase.Spawning?
    ensures NothingSurvives(run)
  {
    hide Exec, Next, Enabled, NothingSurvives;
    RunsAreSound(run);
    RunsAreAccounted(run);
    QuietWithoutSpawns(Exec(run));
    NothingSurvivesIff(run);
  }

  lemma ExecThen(run: Run, step: Step)
    ensures Exec(Then(run, step)) == Next(Exec(run), step)
  {
    hide Next;
  }

  lemma QuietWithoutSpawns(st: State)
    requires TableSound(st) && Accounted(st)
    requires forall n :: n in st.children ==> !st.children[n].phase.Spawning?
    ensures Quiet(st)
  {
  }

  /** For example, a process whose spawn call was pending all through shutdown outlives it. */
  lemma {:induction false} PendingSpawnOutlivesShutdown() returns (run: Run)
    ensures Legal(run) && Exec(run).shutdown == Done && Exec(run).stopping && Exec(run).alive != {}
  {
    hide CrashLoop;
    var r0 := Start(DEFAULTS, {"sender-0"});
    var r1 := Then(r0, TryStart("sender-0"));
    var r2 := Then(r1, BeginShutdown);
    var r3 := Then(r2, Born("sender-0", 0));
    assert Exec(r0) == Initial(DEFAULTS, {"sender-0"});
    assert Exec(r1) == Next(Exec(r0), TryStart("sender-0"));
    assert Exec(r2) == Next(Exec(r1), BeginShutdown);
    assert Exec(r3) == Next(Exec(r2), Born("sender-0", 0));
    assert 0 in Exec(r3).alive;
    run := r3;
  }
}
