/** How shutdown proceeds: how long the graceful wait lasts, that nothing keeps shutdown or a stopping child
    from returning, and what each of its phases is about. */
module ShutdownCourse {
  import opened Outcomes
  import opened Supervisor
  import opened ShutdownSafety

  // When shutdown was entered, and with which processes in the table.

  function EnteredAt(run: Run): Option<Time> {
    if run.Start? then None
    else if EnteredAt(run.before).Some? then EnteredAt(run.before)
    else if run.step.BeginShutdown? then Some(Exec(run.before).now)
    else None
  }

  function TableAtEntry(run: Run): set<Pid> {
    if run.Start? then {}
    else if EnteredAt(run.before).Some? then TableAtEntry(run.before)
    else if run.step.BeginShutdown? then Exec(run.before).processes.Values
    else {}
  }

  ghost predicate OnCourse(run: Run) {
    var st := Exec(run);
    && (st.stopping <==> EnteredAt(run).Some?)
    && (st.shutdown.Graceful? ==> EnteredAt(run).Some? && TableAtEntry(run) != {})
    && (st.shutdown.Graceful? ==> st.shutdown == Graceful(TableAtEntry(run), EnteredAt(run).value + st.config.shutdownTimeout))
  }

  lemma CourseStep(st: State, step: Step)
    requires st.config.Valid() && Enabled(st, step) && (st.stopping <==> st.shutdown != NotYet)
    ensures var after := Next(st, step);
      && after.config == st.config
      && (after.stopping <==> st.stopping || step == BeginShutdown)
      && (after.shutdown.Graceful? ==> after.shutdown == st.shutdown || (step == BeginShutdown && !st.stopping))
      && (step == BeginShutdown && !st.stopping && after.shutdown.Graceful? ==>
           st.processes.Values != {} && after.shutdown == Graceful(st.processes.Values, st.now + st.config.shutdownTimeout))
  {
    hide CrashLoop, Quiet;
    if step == BeginShutdown && !st.stopping && st.processes != map[] {
      var n :| n in st.processes;
      assert st.processes[n] in st.processes.Values;
    }
  }

  lemma {:induction false} RunsAreOnCourse(run: Run)
    requires Legal(run)
    ensures OnCourse(run)
  {
    hide Next, Enabled, TableSound, ShutdownSound;
    if run.Then? {
      RunsAreOnCourse(run.before);
      RunsAreSound(run.before);
      StoppingShown(Exec(run.before));
      CourseStep(Exec(run.before), run.step);
    } else {
      NotEntered(run);
    }
  }

  lemma StoppingShown(st: State)
    requires ShutdownSound(st)
    ensures st.stopping <==> st.shutdown != NotYet
  {
  }

  lemma NotEntered(run: Run)
    requires run.Start?
    ensures OnCourse(run)
  {
  }

  /** In every run the graceful wait is for the processes that were in the table when shutdown was entered, and
      it may end exactly when all of them are gone or the timeout has passed since then; so while one of them
      is alive it lasts the whole timeout, and not longer. */
  lemma {:induction false} GraceLasts(run: Run)
    requires Legal(run) && Exec(run).shutdown.Graceful?
    ensures EnteredAt(run).Some? && TableAtEntry(run) != {} && Exec(run).shutdown.targets == TableAtEntry(run)
    ensures Enabled(Exec(run), GraceEnds) <==>
      TableAtEntry(run) !! Exec(run).alive || EnteredAt(run).value + Exec(run).config.shutdownTimeout <= Exec(run).now
  {
    hide Exec;
    RunsAreOnCourse(run);
  }

  /** With the defaults, processes that do not end by themselves are given exactly 5 s. */
  lemma {:induction false} DefaultGrace(run: Run)
    requires Legal(run) && Exec(run).shutdown.Graceful? && Exec(run).config == DEFAULTS && TableAtEntry(run) * Exec(run).alive != {}
    ensures EnteredAt(run).Some? && (Enabled(Exec(run), GraceEnds) <==> Exec(run).now - EnteredAt(run).value >= 5.0)
  {
    hide Exec;
    GraceLasts(run);
  }

  /** On entering shutdown with an empty table it returns at once, otherwise the graceful wait begins; a call
      when already stopping changes nothing. */
  lemma {:induction false} EntryIff(run: Run)
    requires Legal(run)
    ensures var st, after := Exec(run), Exec(Then(run, BeginShutdown));
      && after.stopping
      && (st.stopping ==> after == st)
      && (!st.stopping ==> (after.shutdown == Done <==> st.processes == map[]) && (after.shutdown.Graceful? <==> st.processes != map[]))
  {
    hide Quiet, TableSound;
    RunsAreSound(run);
  }

  /** After the graceful wait exactly the processes that are in the table at that moment are killed and waited
      for, and shutdown returns exactly when all of these are gone. */
  lemma {:induction false} KilledAndReaped(run: Run, remaining: set<Pid>)
    requires Legal(run)
    ensures var st := Exec(run);
      && (st.shutdown == Yielding ==>
           Enabled(st, Escalate) && Next(st, Escalate).shutdown == Reaping(st.processes.Values))
      && (st.shutdown == Reaping(remaining) ==>
           (Enabled(st, ReapEnds) <==> remaining !! st.alive) && (Enabled(st, ReapEnds) ==> Next(st, ReapEnds).shutdown == Done))
  {
    hide Exec, Quiet, TableSound, ShutdownSound;
    RunsAreSound(run);
  }

  /** Nothing keeps shutdown from returning: wherever it is, deaths and its own steps bring it to its end. */
  lemma {:induction false} ShutdownCanReturn(run: Run) returns (later: Run)
    requires Legal(run) && Exec(run).stopping
    ensures Legal(later) && Extends(run, later) && Exec(later) == Exec(run).(alive := Exec(later).alive, shutdown := Done)
  {
    hide Exec, Next, Enabled, Legal, Quiet, TableSound;
    RunsAreSound(run);
    if Exec(run).shutdown == Done {
      later := run;
      assert Extends(run, run);
    } else {
      var dead := Deaths(run, {});
      later := dead;
      if Exec(later).shutdown.Graceful? { later := OwnStep(later, GraceEnds, Yielding); ExtendsMore(run, dead, later); }
      if Exec(later).shutdown == Yielding {
        var yielding := later;
        later := OwnStep(later, Escalate, Reaping(Exec(later).processes.Values));
        ExtendsMore(run, yielding, later);
      }
      var reaping := later;
      later := OwnStep(later, ReapEnds, Done);
      ExtendsMore(run, reaping, later);
    }
  }

  // A step of shutdown itself, with nothing alive.
  lemma OwnStep(run: Run, step: Step, next: Shutdown) returns (later: Run)
    requires Legal(run) && Exec(run).config.Valid() && Exec(run).alive == {}
    requires || (step == GraceEnds && Exec(run).shutdown.Graceful? && next == Yielding)
             || (step == Escalate && Exec(run).shutdown == Yielding && next == Reaping(Exec(run).processes.Values))
             || (step == ReapEnds && Exec(run).shutdown.Reaping? && next == Done)
    ensures Legal(later) && Extends(run, later) && Exec(later) == Exec(run).(shutdown := next)
  {
    hide Exec, Legal, Quiet;
    OneMoreStep(run, step);
    ExecThen(run, step);
    later := Then(run, step);
  }

  /** Stopping interrupts a backoff: a child that waits may go on at once, and then returns without a start. */
  lemma {:induction false} StopInterruptsBackoff(run: Run, n: Name)
    requires Legal(run) && Exec(run).stopping && n in Exec(run).children && Exec(run).children[n].phase.Backoff?
    ensures var later := Then(Then(run, BackoffEnds(n)), TryStart(n));
      && Legal(later) && n in Exec(later).children
      && Exec(later).children[n] == Exec(run).children[n].(phase := Returned)
  {
    hide CrashLoop, Quiet, Settled, TableSound, ShutdownSound;
    RunsAreSound(run);
  }
}
