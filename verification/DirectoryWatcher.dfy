/** The directory watcher with its timer tasks as objects: the table of pending paths holds references to
    tasks, and a waking task leaves the table only if the entry is itself. Each method is what runs between
    two awaits; together they take exactly the steps of the debouncer. */
module Watching {
  import opened Outcomes
  import opened Domain
  import opened Debounce
  import Sorting

  class TimerTask {
    ghost const id: TaskId
    ghost const born: Time
    const path: Path
    var status: Status

    constructor (ghost id: TaskId, path: Path, ghost born: Time)
      ensures this.id == id && this.path == path && this.born == born && status == Waiting
    {
      this.id := id;
      this.path := path;
      this.born := born;
      status := Waiting;
    }

    method Cancel()
      modifies this
      ensures status == if old(status) == Waiting then Cancelled else old(status)
    {
      if status == Waiting { status := Cancelled; }
    }
  }

  method CancelAll(targets: set<TimerTask>)
    modifies targets
    ensures forall t :: t in targets ==> t.status == if old(t.status) == Waiting then Cancelled else old(t.status)
  {
    var rest := targets;
    while rest != {}
      invariant rest <= targets
      invariant forall t :: t in rest ==> t.status == old(t.status)
      invariant forall t :: t in targets - rest ==> t.status == if old(t.status) == Waiting then Cancelled else old(t.status)
      decreases |rest|
    {
      var task := Sorting.Any(rest);
      task.Cancel();
      rest := rest - {task};
    }
  }

  class DirectoryWatcher {
    const debounceSeconds: Time
    var pending: map<Path, TimerTask>
    var stablePaths: seq<Path>
    var listener: Listener
    var consuming: bool
    var closed: bool
    ghost var tasks: seq<TimerTask>
    ghost var st: State
    ghost var run: Run

    ghost predicate ShowsTasks(abstracted: seq<Task>)
      reads `tasks, tasks
    {
      && |tasks| == |abstracted|
      && (forall t :: 0 <= t < |tasks| ==>
           tasks[t].id == t && abstracted[t] == Task(tasks[t].path, tasks[t].born, tasks[t].status))
    }

    ghost predicate ShowsTable(table: map<Path, TaskId>)
      reads `tasks, `pending
    {
      pending.Keys == table.Keys && forall p :: p in pending ==> table[p] < |tasks| && pending[p] == tasks[table[p]]
    }

    // The objects show the abstract state.
    ghost predicate Shows()
      reads this, tasks
    {
      && st.debounce == debounceSeconds && st.stable == stablePaths && st.listener == listener
      && st.consuming == consuming && st.closed == closed
      && ShowsTasks(st.tasks) && ShowsTable(st.pending)
    }

    ghost predicate Valid()
      reads this, tasks
    {
      Shows() && Legal(run) && Exec(run) == st
    }

    constructor (debounceSeconds: Time)
      ensures Valid() && run == Start(debounceSeconds) && tasks == []
    {
      this.debounceSeconds := debounceSeconds;
      pending := map[];
      stablePaths := [];
      listener := Asking;
      consuming := true;
      closed := false;
      tasks := [];
      st := Initial(debounceSeconds);
      run := Start(debounceSeconds);
    }

    ghost method Stepped(step: Step)
      requires Legal(run) && Enabled(Exec(run), step) && st == Next(Exec(run), step)
      modifies this`run
      ensures run == Then(old(run), step) && Legal(run) && Exec(run) == st
    {
      run := Then(run, step);
    }

    ghost method Pass(to: Time)
      requires Valid() && st.now <= to
      modifies this`st, this`run
      ensures Valid() && run == Then(old(run), Tick(to))
    {
      hide Exec, Legal;
      st := Next(st, Tick(to));
      Stepped(Tick(to));
    }

    /** An event: the path's timer starts anew. */
    method DebouncePath(path: Path)
      requires Valid() && consuming && !closed
      modifies this`pending, this`tasks, this`st, this`run, tasks
      ensures Valid() && run == Then(old(run), Arrive(path))
      ensures |tasks| == |old(tasks)| + 1 && tasks[..|old(tasks)|] == old(tasks) && fresh(tasks[|old(tasks)|])
      ensures pending == old(pending)[path := tasks[|old(tasks)|]]
    {
      hide Exec, Legal, ShowsTable, Superseded;
      CancelPending(path);
      var task := new TimerTask(|tasks|, path, st.now);
      EnterTable(task);
      st := Next(st, Arrive(path));
      Stepped(Arrive(path));
    }

    method CancelPending(path: Path)
      requires ShowsTasks(st.tasks) && ShowsTable(st.pending)
      modifies tasks
      ensures ShowsTasks(Superseded(st, path))
    {
      if path in pending { pending[path].Cancel(); }
    }

    method EnterTable(task: TimerTask)
      requires ShowsTable(st.pending)
      modifies this`pending, this`tasks
      ensures pending == old(pending)[task.path := task] && tasks == old(tasks) + [task]
      ensures ShowsTable(st.pending[task.path := |old(tasks)|])
    {
      pending := pending[task.path := task];
      tasks := tasks + [task];
    }

    /** A timer has run out and its task goes on: it emits its path. */
    method EmitWhenStable(task: TimerTask)
      requires Valid() && task in tasks && task.status == Waiting && task.born + debounceSeconds <= st.now
      modifies this`pending, this`stablePaths, this`st, this`run, task
      ensures Valid() && run == Then(old(run), Wake(task.id))
      ensures stablePaths == old(stablePaths) + [task.path]
      ensures task.path in old(pending) && old(pending)[task.path] == task && pending == old(pending) - {task.path}
    {
      hide Exec, Legal, Inv, Allowed, ShowsTable;
      RunsKeepInv(run);
      CurrentTask(task);
      LeaveTable(task);
      stablePaths := stablePaths + [task.path];
      task.status := Emitted;
      st := Next(st, Wake(task.id));
      Stepped(Wake(task.id));
    }

    method LeaveTable(task: TimerTask)
      requires ShowsTable(st.pending)
      modifies this`pending
      ensures pending == if task.path in old(pending) && old(pending)[task.path] == task then old(pending) - {task.path} else old(pending)
      ensures ShowsTable(if task.path in old(pending) && old(pending)[task.path] == task then st.pending - {task.path} else st.pending)
    {
      if task.path in pending && pending[task.path] == task { pending := pending - {task.path}; }
    }

    // A waiting task is the one in the table.
    lemma CurrentTask(task: TimerTask)
      requires Shows() && Inv(st) && task in tasks && task.status == Waiting && task.born + debounceSeconds <= st.now
      ensures task.id < |st.tasks| && tasks[task.id] == task && Enabled(st, Wake(task.id))
      ensures task.path in pending && pending[task.path] == task
      ensures task.path in st.pending && st.pending[task.path] == task.id
    {
      assert st.tasks[task.id].status == Waiting;
      WakeIsAllowed(st, task.id);
    }

    // The listener's get returns a path, also one abandoned when the listener ended, which hands it to nobody.
    method TakeStable() returns (path: Path)
      requires Valid() && listener == Asking && stablePaths != []
      modifies this`stablePaths, this`listener, this`st, this`run
      ensures Valid() && run == Then(old(run), Get)
      ensures [path] + stablePaths == old(stablePaths) && listener == Holding(path)
    {
      hide Exec, Legal;
      path := stablePaths[0];
      stablePaths := stablePaths[1..];
      listener := Holding(path);
      st := Next(st, Get);
      Stepped(Get);
    }

    // The listener goes on with the path it got: it hands it out, or ends if the source of events has ended.
    method HandOut() returns (path: Option<Path>)
      requires Valid() && !closed && listener.Holding?
      modifies this`listener, this`consuming, this`closed, this`st, this`run, tasks
      ensures Valid() && run == Then(old(run), if old(consuming) then Yield else Close)
      ensures path == if old(consuming) then Some(old(listener).path) else None
      ensures if old(consuming) then listener == Suspended && !closed else closed
    {
      hide Exec, Legal;
      if !consuming {
        EndListening();
        return None;
      }
      path := Some(listener.path);
      listener := Suspended;
      st := Next(st, Yield);
      Stepped(Yield);
    }

    method AskAgain()
      requires Valid() && !closed && listener == Suspended
      modifies this`listener, this`st, this`run
      ensures Valid() && run == Then(old(run), Resume)
      ensures listener == Asking
    {
      hide Exec, Legal;
      listener := Asking;
      st := Next(st, Resume);
      Stepped(Resume);
    }

    method SourceEnds()
      requires Valid() && consuming
      modifies this`consuming, this`st, this`run
      ensures Valid() && run == Then(old(run), ConsumerEnds)
      ensures !consuming
    {
      hide Exec, Legal;
      consuming := false;
      st := Next(st, ConsumerEnds);
      Stepped(ConsumerEnds);
    }

    /** The listener ends, whatever the reason: the consumer and every pending task are cancelled. */
    method EndListening()
      requires Valid() && !closed
      modifies this`consuming, this`closed, this`st, this`run, tasks
      ensures Valid() && run == Then(old(run), Close) && pending == old(pending)
      ensures forall t :: t in tasks ==> t.status != Waiting
      ensures closed && !consuming
    {
      hide Exec, Legal, Inv, ShowsTable, ShowsTasks, AllHalted;
      consuming := false;
      HaltPending();
      closed := true;
      st := Next(st, Close);
      Stepped(Close);
      RunsKeepInv(run);
      NoneWaits();
    }

    method HaltPending()
      requires ShowsTasks(st.tasks) && ShowsTable(st.pending)
      modifies tasks
      ensures ShowsTasks(AllHalted(st.tasks, st.pending.Values))
    {
      hide AllHalted, ShowsTable;
      TableValues();
      CancelAll(pending.Values);
      AllAreHalted(st.tasks);
    }

    lemma NoneWaits()
      requires ShowsTasks(st.tasks) && Inv(st) && st.closed
      ensures forall t :: t in tasks ==> t.status != Waiting
    {
      hide TableShowsTrace, CountsMatch, TraceSound;
    }

    lemma AllAreHalted(before: seq<Task>)
      requires |tasks| == |before|
      requires forall t :: 0 <= t < |tasks| ==> (tasks[t] in pending.Values <==> t in st.pending.Values)
      requires forall t :: 0 <= t < |tasks| ==> tasks[t].id == t && tasks[t].path == before[t].path && tasks[t].born == before[t].born
      requires forall t :: 0 <= t < |tasks| ==>
        tasks[t].status == if tasks[t] in pending.Values && before[t].status == Waiting then Cancelled else before[t].status
      ensures ShowsTasks(AllHalted(before, st.pending.Values))
    {
    }

    lemma TableValues()
      requires ShowsTable(st.pending) && forall t :: 0 <= t < |tasks| ==> tasks[t].id == t
      ensures forall t :: 0 <= t < |tasks| ==> (tasks[t] in pending.Values <==> t in st.pending.Values)
      ensures forall u :: u in pending.Values ==> u in tasks
    {
      forall t | 0 <= t < |tasks| ensures tasks[t] in pending.Values <==> t in st.pending.Values {
        if tasks[t] in pending.Values {
          var p :| p in pending && pending[p] == tasks[t];
          assert p in st.pending && st.pending[p] == t;
        }
        if t in st.pending.Values {
          var p :| p in st.pending && st.pending[p] == t;
          assert p in pending && pending[p] == tasks[t];
        }
      }
    }
  }
}
