/** The supervisor with its tables and its child tasks as objects. Each method is what one task does between
    two awaits; together they take exactly the steps of the step system. A child task keeps only a bounded
    deque of exit times, which decides crash loops as the whole history does. */
module ProcessSupervision {
  import opened Outcomes
  import opened Supervisor
  import opened Restarts
  import ShutdownSafety
  import Sorting

  // The variables of one child's restart loop, and where it waits.
  class ChildTask {
    const name: Name
    var phase: Phase
    var consecutiveFailures: nat
    var exitTimestamps: seq<Time>

    constructor (name: Name)
      ensures this.name == name && phase == AtTop && consecutiveFailures == 0 && exitTimestamps == []
    {
      this.name := name;
      phase := AtTop;
      consecutiveFailures := 0;
      exitTimestamps := [];
    }

    ghost predicate Shows(child: Child, m: nat)
      reads this
    {
      && phase == Known(child.phase)
      && consecutiveFailures == child.failures
      && exitTimestamps == LastOf(Recorded(child.exits), m)
    }
  }

  // A task waiting for a spawn call does not see whether the process exists yet.
  function Known(phase: Phase): Phase { if phase.Spawning? then phase.(born := None) else phase }

  lemma OneMoreOrdered(st: State, n: Name, exit: Exit)
    requires ChildrenSound(st) && n in st.children && st.now <= exit.recordedAt
    ensures Ordered(st.children[n].exits + [exit])
  {
    hide CrashLoop, Streak, StartsSpaced;
    HistoryOrdered(st, n);
    assert ChildSound(st, n);
    var exits := st.children[n].exits;
    if exits != [] { assert ExitSound(exits, |exits| - 1, st.config); }
  }

  /** The deque after one more exit, and what looking at it alone decides. */
  lemma {:induction false} DequeDecides(st: State, n: Name, exit: Exit, delay: Option<Time>)
    requires ChildrenSound(st) && n in st.children && st.now <= exit.recordedAt
    ensures st.config.Valid()
    ensures var m, exits := st.config.maxRestarts, st.children[n].exits;
      var deque := Appended(LastOf(Recorded(exits), m), exit.recordedAt, m);
      && deque == LastOf(Recorded(exits + [exit]), m) == LastOf(Recorded(exits + [exit.(delay := delay)]), m)
      && (|deque| == m && exit.checkedAt - deque[0] < st.config.window <==> CrashLoop(exits + [exit], exit.checkedAt, st.config))
  {
    hide CrashLoop, ChildSound, LastOf, Recorded;
    var exits := st.children[n].exits;
    AppendedKeepsLast(exits, exit, st.config.maxRestarts);
    AppendedKeepsLast(exits, exit.(delay := delay), st.config.maxRestarts);
    OneMoreOrdered(st, n, exit);
    DequeRefinesHistory(exits + [exit], exit.checkedAt, st.config);
  }

  class ProcessSupervisor {
    const config: Config
    var tasks: map<Name, ChildTask>
    var processes: map<Name, Pid>
    var degraded: set<Name>
    var stopping: bool
    var stopper: Shutdown  // the variables of the shutdown call under way
    ghost var st: State
    ghost var run: Run

    ghost predicate ShowsTasks(children: map<Name, Child>)
      reads this`tasks, tasks.Values
    {
      tasks.Keys == children.Keys && forall n :: n in tasks ==> tasks[n].name == n && tasks[n].Shows(children[n], config.maxRestarts)
    }

    // The objects show the abstract state.
    ghost predicate Shows()
      reads this, tasks.Values
    {
      && st.config == config
      && ShowsTasks(st.children)
      && processes == st.processes && degraded == st.degraded && stopping == st.stopping && stopper == st.shutdown
    }

    ghost predicate Valid()
      reads this, tasks.Values
    {
      Shows() && config.Valid() && Legal(run) && Exec(run) == st
    }

    ghost predicate Mine(t: ChildTask)
      reads this`tasks
    {
      t.name in tasks && tasks[t.name] == t
    }

    constructor (config: Config, names: set<Name>)
      requires config.Valid()
      ensures Valid() && run == Start(config, names) && fresh(tasks.Values)
    {
      this.config := config;
      tasks := map[];
      processes := map[];
      degraded := {};
      stopping := false;
      stopper := NotYet;
      st := Initial(config, names);
      run := Start(config, names);
      new;
      var rest := names;
      while rest != {}
        invariant rest <= names && tasks.Keys == names - rest
        invariant forall n :: n in tasks ==> fresh(tasks[n])
        invariant forall n :: n in tasks ==> tasks[n].name == n && tasks[n].Shows(NEW_CHILD, config.maxRestarts)
        invariant this.config == config && st == Initial(config, names) && run == Start(config, names)
        invariant processes == map[] && degraded == {} && !stopping && stopper == NotYet
        decreases |rest|
      {
        var n := Sorting.Any(rest);
        var task := new ChildTask(n);
        tasks := tasks[n := task];
        rest := rest - {n};
      }
    }

    ghost function Others(name: Name): set<ChildTask>
      reads `tasks
    {
      set n | n in tasks && n != name :: tasks[n]
    }

    ghost predicate OthersShow(name: Name, children: map<Name, Child>)
      reads `tasks, Others(name)
    {
      && name in tasks && tasks.Keys == children.Keys
      && (forall n :: n in tasks ==> tasks[n].name == n)
      && (forall n :: n in tasks && n != name ==> tasks[n].Shows(children[n], config.maxRestarts))
    }

    lemma Shown(t: ChildTask, children: map<Name, Child>)
      requires ShowsTasks(children) && Mine(t)
      ensures t.name in children && t.Shows(children[t.name], config.maxRestarts)
      ensures OthersShow(t.name, children) && t !in Others(t.name)
    {
      hide ChildTask.Shows;
    }

    // Only this task has changed, and it shows its child again.
    lemma OnlyThis(t: ChildTask, before: map<Name, Child>, child: Child)
      requires Mine(t) && OthersShow(t.name, before) && t.Shows(child, config.maxRestarts)
      ensures ShowsTasks(before[t.name := child])
    {
      hide ChildTask.Shows;
    }

    ghost method Stepped(step: Step)
      requires Legal(run) && Enabled(Exec(run), step) && st == Next(Exec(run), step)
      modifies this`run
      ensures run == Then(old(run), step) && Legal(run) && Exec(run) == st
    {
      run := Then(run, step);
    }

    /** What the outside world does: time passes, a spawned process comes to life, a process ends. */
    ghost method Outside(step: Step)
      requires Valid() && Enabled(st, step) && (step.Tick? || step.Born? || step.Dies?)
      modifies this`st, this`run
      ensures Valid() && run == Then(old(run), step)
    {
      hide Exec, Legal, CrashLoop, Settled, Quiet, LastOf, Recorded, ChildrenSound;
      st := Next(st, step);
      Stepped(step);
    }

    method StartChild(t: ChildTask, now: Time)
      requires Valid() && Mine(t) && t.phase == AtTop && now == st.now
      modifies this`st, this`run, t
      ensures Valid() && run == Then(old(run), TryStart(t.name))
      ensures t.phase == if stopping then Returned else Spawning(now, None)
    {
      hide Exec, Legal, CrashLoop, Settled, Quiet, LastOf, Recorded, ShowsTasks, OthersShow, ChildrenSound;
      Shown(t, st.children);
      ghost var children := st.children;
      if stopping {
        t.phase := Returned;
      } else {
        t.phase := Spawning(now, None);
      }
      st := Next(st, TryStart(t.name));
      OnlyThis(t, children, st.children[t.name]);
      Stepped(TryStart(t.name));
    }

    // The spawn call returns the process.
    method SpawnReturned(t: ChildTask, pid: Pid)
      requires Valid() && Mine(t) && t.phase.Spawning? && st.children[t.name].phase.born == Some(pid)
      modifies this`processes, this`st, this`run, t
      ensures Valid() && run == Then(old(run), SpawnReturns(t.name))
      ensures processes == old(processes)[t.name := pid]
    {
      hide Exec, Legal, CrashLoop, Settled, Quiet, LastOf, Recorded, ShowsTasks, OthersShow, ChildrenSound;
      Shown(t, st.children);
      ghost var children := st.children;
      processes := processes[t.name := pid];
      t.phase := Running(pid, t.phase.startedAt);
      st := Next(st, SpawnReturns(t.name));
      OnlyThis(t, children, st.children[t.name]);
      Stepped(SpawnReturns(t.name));
    }

    method SpawnFailed(t: ChildTask, measuredAt: Time, recordedAt: Time, checkedAt: Time)
      requires Valid() && Mine(t) && Enabled(st, SpawnFails(t.name, measuredAt, recordedAt, checkedAt))
      modifies this`degraded, this`st, this`run, t
      ensures Valid() && run == Then(old(run), SpawnFails(t.name, measuredAt, recordedAt, checkedAt))
    {
      hide Exec, Legal, CrashLoop, Settled, Quiet, LastOf, Recorded, ShowsTasks, OthersShow, ChildrenSound;
      Shown(t, st.children);
      ChildrenStaySound(run);
      AfterExit(t, t.phase.startedAt, measuredAt, recordedAt, checkedAt);
      Stepped(SpawnFails(t.name, measuredAt, recordedAt, checkedAt));
    }

    // The wait for the process returns.
    method ProcessExited(t: ChildTask, measuredAt: Time, recordedAt: Time, checkedAt: Time)
      requires Valid() && Mine(t) && Enabled(st, WaitReturns(t.name, measuredAt, recordedAt, checkedAt))
      modifies this`processes, this`degraded, this`st, this`run, t
      ensures Valid() && run == Then(old(run), WaitReturns(t.name, measuredAt, recordedAt, checkedAt))
      ensures processes == old(processes) - {t.name}
    {
      hide Exec, Legal, CrashLoop, Settled, Quiet, LastOf, Recorded, ShowsTasks, OthersShow, ChildrenSound;
      Shown(t, st.children);
      ChildrenStaySound(run);
      processes := processes - {t.name};
      ghost var popped := st.(processes := st.processes - {t.name});
      Everyone(st, popped);
      st := popped;
      AfterExit(t, t.phase.startedAt, measuredAt, recordedAt, checkedAt);
      Stepped(WaitReturns(t.name, measuredAt, recordedAt, checkedAt));
    }

    // What follows an exit or a failed spawn, up to the next wait.
    method AfterExit(t: ChildTask, startedAt: Time, measuredAt: Time, recordedAt: Time, checkedAt: Time)
      requires Shows() && config.Valid() && Mine(t) && ChildrenSound(st) && Readings(st.now, measuredAt, recordedAt, checkedAt)
      modifies this`degraded, this`st, t
      ensures Shows() && st == Settled(old(st), t.name, startedAt, measuredAt, recordedAt, checkedAt)
    {
      hide Exec, Legal, CrashLoop, ChildrenSound, LastOf, Recorded, Appended, ShowsTasks, OthersShow;
      Shown(t, st.children);
      ghost var children := st.children;
      if stopping {
        t.phase := Returned;
      } else {
        var uptime := measuredAt - startedAt;
        if uptime > config.backoff[|config.backoff| - 1] { t.consecutiveFailures := 0; }
        GiveUpOrBackOff(t, Exit(startedAt, measuredAt, recordedAt, checkedAt, None));
      }
      st := Settled(st, t.name, startedAt, measuredAt, recordedAt, checkedAt);
      OnlyThis(t, children, st.children[t.name]);
    }

    // Enters the exit in the deque, which decides as the whole history would.
    method GiveUpOrBackOff(t: ChildTask, exit: Exit)
      requires st.config == config && config.Valid() && t.name in st.children && ChildrenSound(st) && st.now <= exit.recordedAt
      requires t.exitTimestamps == LastOf(Recorded(st.children[t.name].exits), config.maxRestarts)
      modifies this`degraded, t
      ensures var hopeless := CrashLoop(st.children[t.name].exits + [exit], exit.checkedAt, config);
        var delay := config.Delay(old(t.consecutiveFailures));
        && degraded == (if hopeless then old(degraded) + {t.name} else old(degraded))
        && t.phase == (if hopeless then Returned else Backoff(exit.checkedAt, delay))
        && t.consecutiveFailures == old(t.consecutiveFailures) + (if hopeless then 0 else 1)
        && t.exitTimestamps == LastOf(Recorded(st.children[t.name].exits +
             [if hopeless then exit else exit.(delay := Some(delay))]), config.maxRestarts)
    {
      hide CrashLoop, ChildrenSound, LastOf, Recorded, Appended;
      DequeDecides(st, t.name, exit, Some(config.Delay(t.consecutiveFailures)));
      t.exitTimestamps := Appended(t.exitTimestamps, exit.recordedAt, config.maxRestarts);
      if |t.exitTimestamps| == config.maxRestarts && exit.checkedAt - t.exitTimestamps[0] < config.window {
        degraded := degraded + {t.name};
        t.phase := Returned;
      } else {
        var delayIndex := if t.consecutiveFailures < |config.backoff| - 1 then t.consecutiveFailures else |config.backoff| - 1;
        t.phase := Backoff(exit.checkedAt, config.backoff[delayIndex]);
        t.consecutiveFailures := t.consecutiveFailures + 1;
      }
    }

    // The backoff wait ends, by time or because the supervisor is stopping.
    method BackoffOver(t: ChildTask)
      requires Valid() && Mine(t) && Enabled(st, BackoffEnds(t.name))
      modifies this`st, this`run, t
      ensures Valid() && run == Then(old(run), BackoffEnds(t.name)) && t.phase == AtTop
    {
      hide Exec, Legal, CrashLoop, Settled, Quiet, LastOf, Recorded, ShowsTasks, OthersShow, ChildrenSound;
      Shown(t, st.children);
      ghost var children := st.children;
      t.phase := AtTop;
      st := Next(st, BackoffEnds(t.name));
      OnlyThis(t, children, st.children[t.name]);
      Stepped(BackoffEnds(t.name));
    }

    // The child's task is cancelled where it waits; its entry in the table stays.
    method CancelChild(t: ChildTask)
      requires Valid() && Mine(t) && !t.phase.Returned? && !t.phase.Cancelled?
      modifies this`st, this`run, t
      ensures Valid() && run == Then(old(run), CancelTask(t.name)) && processes == old(processes)
    {
      hide Exec, Legal, CrashLoop, Settled, Quiet, LastOf, Recorded, ShowsTasks, OthersShow, ChildrenSound;
      Shown(t, st.children);
      ghost var children := st.children;
      t.phase := Cancelled;
      st := Next(st, CancelTask(t.name));
      OnlyThis(t, children, st.children[t.name]);
      Stepped(CancelTask(t.name));
    }

    /** The shutdown call up to its first wait: the processes to terminate, or None for a second call, which
        returns at once. */
    method EnterShutdown(now: Time) returns (terminated: Option<set<Pid>>)
      requires Valid() && now == st.now
      modifies this`stopping, this`stopper, this`st, this`run
      ensures Valid() && run == Then(old(run), BeginShutdown) && stopping
      ensures terminated == if old(stopping) then None else Some(processes.Values)
      ensures old(stopping) ==> stopper == old(stopper)
      ensures !old(stopping) && processes != map[] ==> stopper == Graceful(processes.Values, now + config.shutdownTimeout)
      ensures !old(stopping) && processes == map[] ==> stopper == Done
    {
      hide Exec, Legal, CrashLoop, Settled, Quiet, LastOf, Recorded, ShowsTasks, OthersShow, ChildrenSound;
      if stopping {
        terminated := None;
      } else {
        stopping := true;
        var targets := processes.Values;
        terminated := Some(targets);
        stopper := if processes == map[] then Done else Graceful(targets, now + config.shutdownTimeout);
      }
      st := Next(st, BeginShutdown);
      Stepped(BeginShutdown);
    }

    // The graceful wait ends, all targets gone or the timeout over; the call yields once.
    method GraceOver()
      requires Valid() && Enabled(st, GraceEnds)
      modifies this`stopper, this`st, this`run
      ensures Valid() && run == Then(old(run), GraceEnds)
    {
      hide Exec, Legal, CrashLoop, Settled, Quiet, LastOf, Recorded, ShowsTasks, OthersShow, ChildrenSound;
      stopper := Yielding;
      st := Next(st, GraceEnds);
      Stepped(GraceEnds);
    }

    // The table is read again, and what is left in it is killed.
    method KillRemaining() returns (killed: set<Pid>)
      requires Valid() && stopper == Yielding
      modifies this`stopper, this`st, this`run
      ensures Valid() && run == Then(old(run), Escalate) && killed == processes.Values
    {
      hide Exec, Legal, CrashLoop, Settled, Quiet, LastOf, Recorded, ShowsTasks, OthersShow, ChildrenSound;
      killed := processes.Values;
      stopper := Reaping(killed);
      st := Next(st, Escalate);
      Stepped(Escalate);
    }

    /** The last wait is over and shutdown returns: nothing is alive, if it was entered with no spawn call that
        could still create a process and every live process in the table. */
    method ShutdownReturns()
      requires Valid() && Enabled(st, ReapEnds)
      modifies this`stopper, this`st, this`run
      ensures Valid() && run == Then(old(run), ReapEnds) && stopper == Done
      ensures st.quiet ==> st.alive == {}
    {
      hide Exec, Legal, CrashLoop, Settled, Quiet, LastOf, Recorded, ShowsTasks, OthersShow, ChildrenSound;
      stopper := Done;
      st := Next(st, ReapEnds);
      Stepped(ReapEnds);
      if st.quiet { ShutdownSafety.ShutdownLeavesNothingAlive(run); }
    }

    /** A child is degraded exactly when, at its last exit, at least M of all its exits were within the window. */
    method IsDegraded(n: Name) returns (r: bool)
      requires Valid() && n in tasks
      ensures var exits := st.children[n].exits; r <==> exits != [] && CrashLoop(exits, exits[|exits| - 1].checkedAt, config)
    {
      hide Exec, CrashLoop;
      DegradedIff(run, n);
      r := n in degraded;
    }
  }
}
