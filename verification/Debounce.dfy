/** Debouncing of file events. On each event the path's timer starts anew; when a timer runs out, the path
    is emitted. The code does it with one task per event and a table of the current ones. What it does is
    stated on the trace of events and emissions alone. */
module Debounce {
  import opened Outcomes
  import opened Domain

  type Time = real
  type TaskId = nat

  // Traces: the specification

  datatype Act = Event(path: Path, at: Time) | Emission(path: Path, at: Time)

  function LastAct(trace: seq<Act>, p: Path): Option<Act> {
    if trace == [] then None else
      var n := |trace| - 1;
      if trace[n].path == p then Some(trace[n]) else LastAct(trace[..n], p)
  }

  // A path may be emitted when the last thing that happened to it is an event at least the interval ago.
  predicate Allowed(trace: seq<Act>, act: Act, interval: Time) {
    act.Event? || (LastAct(trace, act.path).Some? && LastAct(trace, act.path).value.Event?
                   && LastAct(trace, act.path).value.at + interval <= act.at)
  }

  predicate Debounced(trace: seq<Act>, interval: Time) {
    trace == [] ||
      var n := |trace| - 1;
      && Debounced(trace[..n], interval)
      && Allowed(trace[..n], trace[n], interval)
      && (n > 0 ==> trace[n - 1].at <= trace[n].at)
  }

  lemma {:induction false} LastActAt(trace: seq<Act>, p: Path) returns (k: nat)
    requires LastAct(trace, p).Some?
    ensures k < |trace| && trace[k].path == p && LastAct(trace, p) == Some(trace[k])
    ensures forall j :: k < j < |trace| ==> trace[j].path != p
  {
    var n := |trace| - 1;
    k := n;
    if trace[n].path != p { k := LastActAt(trace[..n], p); }
  }

  lemma {:induction false} InOrder(trace: seq<Act>, interval: Time, i: nat, j: nat)
    requires Debounced(trace, interval) && i <= j < |trace|
    ensures trace[i].at <= trace[j].at
  {
    var n := |trace| - 1;
    if j < n {
      InOrder(trace[..n], interval, i, j);
    } else if i < j {
      InOrder(trace[..n], interval, i, j - 1);
    }
  }

  /** Every emission answers one event, the newest on its path, after a full interval in which nothing
      happened to the path. */
  lemma {:induction false} EmissionIsQuiet(trace: seq<Act>, interval: Time, i: nat) returns (k: nat)
    requires Debounced(trace, interval) && i < |trace| && trace[i].Emission?
    ensures k < i && trace[k].path == trace[i].path && trace[k].Event?
    ensures trace[k].at + interval <= trace[i].at
    ensures forall j :: k < j < i ==> trace[j].path != trace[i].path
  {
    var n := |trace| - 1;
    if i < n {
      k := EmissionIsQuiet(trace[..n], interval, i);
    } else {
      k := LastActAt(trace[..n], trace[n].path);
    }
  }

  /** Two emissions of a path are at least the interval apart. */
  lemma {:induction false} EmissionsApart(trace: seq<Act>, interval: Time, i: nat, j: nat)
    requires Debounced(trace, interval) && i < j < |trace|
    requires trace[i].Emission? && trace[j].Emission? && trace[i].path == trace[j].path
    ensures trace[i].at + interval <= trace[j].at
  {
    var k := EmissionIsQuiet(trace, interval, j);
    InOrder(trace, interval, i, k);
  }

  function Emissions(trace: seq<Act>): seq<Path> {
    if trace == [] then [] else
      var n := |trace| - 1;
      Emissions(trace[..n]) + if trace[n].Emission? then [trace[n].path] else []
  }

  function EventsOn(trace: seq<Act>, p: Path): nat {
    if trace == [] then 0 else
      var n := |trace| - 1;
      EventsOn(trace[..n], p) + if trace[n].Event? && trace[n].path == p then 1 else 0
  }

  function EmissionsOn(trace: seq<Act>, p: Path): nat {
    if trace == [] then 0 else
      var n := |trace| - 1;
      EmissionsOn(trace[..n], p) + if trace[n].Emission? && trace[n].path == p then 1 else 0
  }

  lemma OneMoreAct(trace: seq<Act>, act: Act)
    ensures forall p :: LastAct(trace + [act], p) == if act.path == p then Some(act) else LastAct(trace, p)
    ensures Emissions(trace + [act]) == Emissions(trace) + if act.Emission? then [act.path] else []
    ensures forall p :: EventsOn(trace + [act], p) == EventsOn(trace, p) + if act.Event? && act.path == p then 1 else 0
    ensures forall p :: EmissionsOn(trace + [act], p) == EmissionsOn(trace, p) + if act.Emission? && act.path == p then 1 else 0
  {
    assert (trace + [act])[..|trace|] == trace;
  }

  lemma OneMoreDebounced(trace: seq<Act>, act: Act, interval: Time)
    requires Debounced(trace, interval) && Allowed(trace, act, interval)
    requires trace != [] ==> trace[|trace| - 1].at <= act.at
    ensures Debounced(trace + [act], interval)
  {
    assert (trace + [act])[..|trace|] == trace;
  }

  // The watcher

  datatype Status = Waiting | Emitted | Cancelled
  datatype Task = Task(path: Path, born: Time, status: Status)

  // Waiting for the next stable path, holding one just taken, or suspended after handing one out.
  datatype Listener = Asking | Holding(path: Path) | Suspended

  datatype State = State(
    debounce: Time, now: Time, tasks: seq<Task>, pending: map<Path, TaskId>, stable: seq<Path>, listener: Listener,
    yielded: seq<Path>, consuming: bool, closed: bool, trace: seq<Act>)

  datatype Step =
    | Tick(to: Time)
    | Arrive(path: Path)
    | Wake(t: TaskId)
    | Get
    | Yield
    | Resume
    | ConsumerEnds   // the source of events fails or ends
    | Close          // the listener ends, whatever the reason

  function Initial(debounce: Time): State {
    State(debounce, 0.0, [], map[], [], Asking, [], true, false, [])
  }

  predicate Enabled(st: State, step: Step) {
    match step
    case Tick(to) => st.now <= to
    case Arrive(_) => st.consuming && !st.closed
    case Wake(t) => t < |st.tasks| && st.tasks[t].status == Waiting && st.tasks[t].born + st.debounce <= st.now
    case Get => st.listener == Asking && st.stable != []   // also a request abandoned when the listener ended
    case Yield => !st.closed && st.listener.Holding? && st.consuming
    case Resume => !st.closed && st.listener == Suspended
    case ConsumerEnds => st.consuming
    case Close => !st.closed
  }

  // Cancelling a task that has ended does nothing.
  function Halted(task: Task): Task { if task.status == Waiting then task.(status := Cancelled) else task }

  function AllHalted(tasks: seq<Task>, ids: set<TaskId>): seq<Task> {
    seq(|tasks|, i requires 0 <= i < |tasks| => if i in ids then Halted(tasks[i]) else tasks[i])
  }

  function Superseded(st: State, p: Path): seq<Task> {
    if p in st.pending && st.pending[p] < |st.tasks| then
      st.tasks[st.pending[p] := Halted(st.tasks[st.pending[p]])]
    else st.tasks
  }

  function Next(st: State, step: Step): State {
    if !Enabled(st, step) then st else
      match step
      case Tick(to) => st.(now := to)
      case Arrive(p) =>
        st.(tasks := Superseded(st, p) + [Task(p, st.now, Waiting)], pending := st.pending[p := |st.tasks|],
            trace := st.trace + [Event(p, st.now)])
      case Wake(t) =>
        var p := st.tasks[t].path;
        st.(tasks := st.tasks[t := st.tasks[t].(status := Emitted)],
            pending := if p in st.pending && st.pending[p] == t then st.pending - {p} else st.pending,
            stable := st.stable + [p], trace := st.trace + [Emission(p, st.now)])
      case Get => st.(listener := Holding(st.stable[0]), stable := st.stable[1..])
      case Yield => st.(listener := Suspended, yielded := st.yielded + [st.listener.path])
      case Resume => st.(listener := Asking)
      case ConsumerEnds => st.(consuming := false)
      case Close => st.(closed := true, consuming := false, tasks := AllHalted(st.tasks, st.pending.Values))
  }

  datatype Run = Start(debounce: Time) | Then(before: Run, step: Step)

  function Exec(run: Run): State {
    match run
    case Start(debounce) => Initial(debounce)
    case Then(before, step) => Next(Exec(before), step)
  }

  predicate Legal(run: Run) { run.Then? ==> Legal(run.before) && Enabled(Exec(run.before), run.step) }

  // What every step keeps

  function CountTasks(tasks: seq<Task>, p: Path, status: Status): nat {
    if tasks == [] then 0 else
      var n := |tasks| - 1;
      CountTasks(tasks[..n], p, status) + if tasks[n].path == p && tasks[n].status == status then 1 else 0
  }

  function Held(listener: Listener): seq<Path> { if listener.Holding? then [listener.path] else [] }

  // The waiting tasks are those in the table, one to a path.
  ghost predicate TableSound(st: State) {
    && (forall p :: p in st.pending ==> st.pending[p] < |st.tasks| && st.tasks[st.pending[p]].path == p)
    && (forall t: TaskId :: t < |st.tasks| && st.tasks[t].status == Waiting ==>
         st.tasks[t].path in st.pending && st.pending[st.tasks[t].path] == t)
    && (!st.closed ==> forall p :: p in st.pending ==> st.tasks[st.pending[p]].status == Waiting)
    && (st.closed ==> forall t: TaskId :: t < |st.tasks| ==> st.tasks[t].status != Waiting)
  }

  function LastEventAfter(trace: seq<Act>, act: Act, p: Path): Option<Time> {
    if act.path != p then LastEvent(trace, p) else if act.Event? then Some(act.at) else None
  }

  lemma OneMoreLast(trace: seq<Act>, act: Act)
    ensures forall p :: LastEvent(trace + [act], p) == LastEventAfter(trace, act, p)
  {
    OneMoreAct(trace, act);
  }

  // The table holds exactly the paths whose last act is an event, with the time of that event.
  ghost predicate TableShowsTrace(st: State)
    requires TableSound(st)
  {
    forall p :: LastEvent(st.trace, p) == if p in st.pending then Some(st.tasks[st.pending[p]].born) else None
  }

  function LastEvent(trace: seq<Act>, p: Path): Option<Time> {
    match LastAct(trace, p)
    case Some(Event(_, at)) => Some(at)
    case _ => None
  }

  ghost predicate CountsMatch(st: State) {
    forall p ::
      && CountTasks(st.tasks, p, Emitted) == EmissionsOn(st.trace, p)
      && CountTasks(st.tasks, p, Waiting) == (if p in st.pending && !st.closed then 1 else 0)
      && CountTasks(st.tasks, p, Emitted) + CountTasks(st.tasks, p, Cancelled) + CountTasks(st.tasks, p, Waiting) == EventsOn(st.trace, p)
  }

  ghost predicate TraceSound(st: State) {
    && Debounced(st.trace, st.debounce)
    && (st.trace != [] ==> st.trace[|st.trace| - 1].at <= st.now)
    && Emissions(st.trace) == st.yielded + Held(st.listener) + st.stable
  }

  ghost predicate Inv(st: State) {
    TableSound(st) && TableShowsTrace(st) && CountsMatch(st) && TraceSound(st)
  }

  lemma {:induction false} CountUpdate(tasks: seq<Task>, t: TaskId, status: Status, p: Path, s: Status)
    requires t < |tasks| && tasks[t].status != status
    ensures CountTasks(tasks[t := tasks[t].(status := status)], p, s) ==
      CountTasks(tasks, p, s) + if tasks[t].path != p then 0 else if s == status then 1 else if s == tasks[t].status then -1 else 0
  {
    var n := |tasks| - 1;
    var after := tasks[t := tasks[t].(status := status)];
    if t < n {
      CountUpdate(tasks[..n], t, status, p, s);
      assert after[..n] == tasks[..n][t := tasks[t].(status := status)];
    } else {
      assert after[..n] == tasks[..n];
    }
  }

  lemma OneMoreTask(tasks: seq<Task>, task: Task)
    ensures forall p, s :: CountTasks(tasks + [task], p, s) == CountTasks(tasks, p, s) + if task.path == p && task.status == s then 1 else 0
  {
    assert (tasks + [task])[..|tasks|] == tasks;
  }

  // Halting every waiting task.
  lemma {:induction false} CountHalted(tasks: seq<Task>, ids: set<TaskId>, p: Path)
    requires forall t: TaskId :: t < |tasks| && tasks[t].status == Waiting ==> t in ids
    ensures var after := AllHalted(tasks, ids);
      && CountTasks(after, p, Waiting) == 0
      && CountTasks(after, p, Emitted) == CountTasks(tasks, p, Emitted)
      && CountTasks(after, p, Cancelled) == CountTasks(tasks, p, Cancelled) + CountTasks(tasks, p, Waiting)
  {
    if tasks != [] {
      var n := |tasks| - 1;
      CountHalted(tasks[..n], ids, p);
      assert AllHalted(tasks, ids)[..n] == AllHalted(tasks[..n], ids);
    }
  }

  lemma ArriveKeeps(st: State, p: Path)
    requires Inv(st) && Enabled(st, Arrive(p))
    ensures Inv(Next(st, Arrive(p)))
  {
    hide Next, Enabled, CountsMatch, TableSound, TableShowsTrace, TraceSound;
    ArriveTable(st, p);
    ArriveShows(st, p);
    ArriveTrace(st, p);
    ArriveCounts(st, p);
  }

  lemma ArriveTable(st: State, p: Path)
    requires TableSound(st) && Enabled(st, Arrive(p))
    ensures TableSound(Next(st, Arrive(p)))
  {
  }

  lemma ArriveShows(st: State, p: Path)
    requires TableSound(st) && TableShowsTrace(st) && Enabled(st, Arrive(p)) && TableSound(Next(st, Arrive(p)))
    ensures TableShowsTrace(Next(st, Arrive(p)))
  {
    hide LastEvent;
    OneMoreLast(st.trace, Event(p, st.now));
  }

  lemma ArriveTrace(st: State, p: Path)
    requires TraceSound(st) && Enabled(st, Arrive(p))
    ensures TraceSound(Next(st, Arrive(p)))
  {
    hide LastAct, Emissions, Debounced, Superseded, TraceSound;
    OneMoreSound(st, Next(st, Arrive(p)), Event(p, st.now));
  }

  lemma OneMoreSound(st: State, after: State, act: Act)
    requires TraceSound(st) && Allowed(st.trace, act, st.debounce) && act.at == st.now
    requires after.trace == st.trace + [act] && after.stable == st.stable + if act.Emission? then [act.path] else []
    requires after.now == st.now && after.debounce == st.debounce && after.yielded == st.yielded && after.listener == st.listener
    ensures TraceSound(after)
  {
    hide LastAct, Emissions, Debounced, Allowed;
    OneMoreAct(st.trace, act);
    OneMoreDebounced(st.trace, act, st.debounce);
  }

  lemma ArriveCounts(st: State, p: Path)
    requires TableSound(st) && CountsMatch(st) && Enabled(st, Arrive(p))
    ensures CountsMatch(Next(st, Arrive(p)))
  {
    hide CountTasks, LastAct, EventsOn, EmissionsOn, Emissions;
    OneMoreAct(st.trace, Event(p, st.now));
    OneMoreTask(Superseded(st, p), Task(p, st.now, Waiting));
    forall q, s | p in st.pending
      ensures CountTasks(Superseded(st, p), q, s) ==
        CountTasks(st.tasks, q, s) + if p != q then 0 else if s == Cancelled then 1 else if s == Waiting then -1 else 0
    {
      CountUpdate(st.tasks, st.pending[p], Cancelled, q, s);
    }
  }

  // A waking task is the one in the table, so the table's check never fails, and its path may be emitted.
  lemma {:induction false} WakeIsAllowed(st: State, t: TaskId)
    requires TableSound(st) && TableShowsTrace(st) && Enabled(st, Wake(t))
    ensures var p := st.tasks[t].path;
      !st.closed && p in st.pending && st.pending[p] == t && Allowed(st.trace, Emission(p, st.now), st.debounce)
  {
    assert LastEvent(st.trace, st.tasks[t].path) == Some(st.tasks[t].born);
  }

  lemma WakeKeeps(st: State, t: TaskId)
    requires Inv(st) && Enabled(st, Wake(t))
    ensures Inv(Next(st, Wake(t)))
  {
    hide Next, CountsMatch, TableSound, TableShowsTrace, TraceSound, Allowed;
    WakeIsAllowed(st, t);
    WakeTable(st, t);
    WakeTrace(st, t);
    WakeCounts(st, t);
  }

  lemma WakeTable(st: State, t: TaskId)
    requires TableSound(st) && TableShowsTrace(st) && Enabled(st, Wake(t))
    ensures TableSound(Next(st, Wake(t))) && TableShowsTrace(Next(st, Wake(t)))
  {
    hide LastAct, Allowed;
    WakeIsAllowed(st, t);
    OneMoreLast(st.trace, Emission(st.tasks[t].path, st.now));
  }

  lemma WakeTrace(st: State, t: TaskId)
    requires TraceSound(st) && Enabled(st, Wake(t)) && Allowed(st.trace, Emission(st.tasks[t].path, st.now), st.debounce)
    ensures TraceSound(Next(st, Wake(t)))
  {
    hide TraceSound, Allowed;
    OneMoreSound(st, Next(st, Wake(t)), Emission(st.tasks[t].path, st.now));
  }

  lemma WakeCounts(st: State, t: TaskId)
    requires TableSound(st) && CountsMatch(st) && Enabled(st, Wake(t))
    ensures CountsMatch(Next(st, Wake(t)))
  {
    hide CountTasks, LastAct, EventsOn, EmissionsOn, Emissions;
    var after := Next(st, Wake(t));
    OneMoreAct(st.trace, Emission(st.tasks[t].path, st.now));
    forall q, s
      ensures CountTasks(after.tasks, q, s) ==
        CountTasks(st.tasks, q, s) + if st.tasks[t].path != q then 0 else if s == Emitted then 1 else if s == Waiting then -1 else 0
    {
      CountUpdate(st.tasks, t, Emitted, q, s);
    }
  }

  lemma CloseKeeps(st: State)
    requires Inv(st) && Enabled(st, Close)
    ensures Inv(Next(st, Close))
  {
    hide CountTasks, LastAct, EventsOn, EmissionsOn, Emissions, Debounced;
    forall t: TaskId | t < |st.tasks| && st.tasks[t].status == Waiting ensures t in st.pending.Values {
      assert st.pending[st.tasks[t].path] == t;
    }
    forall p ensures
      && CountTasks(Next(st, Close).tasks, p, Waiting) == 0
      && CountTasks(Next(st, Close).tasks, p, Emitted) == CountTasks(st.tasks, p, Emitted)
      && CountTasks(Next(st, Close).tasks, p, Cancelled) == CountTasks(st.tasks, p, Cancelled) + CountTasks(st.tasks, p, Waiting)
    {
      CountHalted(st.tasks, st.pending.Values, p);
    }
  }

  lemma SameTasks(st: State, after: State)
    requires TableSound(st) && TableShowsTrace(st) && CountsMatch(st) && after.tasks == st.tasks && after.pending == st.pending
    requires after.trace == st.trace && after.closed == st.closed
    ensures TableSound(after) && TableShowsTrace(after) && CountsMatch(after)
  {
    hide CountTasks, LastEvent, EventsOn, EmissionsOn;
  }

  lemma {:induction false} NextKeeps(st: State, step: Step)
    requires Inv(st) && Enabled(st, step)
    ensures Inv(Next(st, step))
  {
    hide CountTasks, LastAct, EventsOn, EmissionsOn, Emissions, Debounced, AllHalted, Superseded, CountsMatch, TableShowsTrace, TableSound;
    match step
    case Arrive(p) => ArriveKeeps(st, p);
    case Wake(t) => WakeKeeps(st, t);
    case Close => CloseKeeps(st);
    case _ => SameTasks(st, Next(st, step));
  }

  lemma {:induction false} RunsKeepInv(run: Run)
    requires Legal(run)
    ensures Inv(Exec(run))
  {
    hide Next, Enabled;
    match run
    case Start(_) =>
    case Then(before, step) =>
      RunsKeepInv(before);
      NextKeeps(Exec(before), step);
  }

  // What the watcher promises, over every run

  /** Every run's trace is debounced; and while the watcher is open, a path may be emitted under the
      specification exactly when the code has a task for it that can wake. */
  lemma {:induction false} RefinesTrace(run: Run, p: Path)
    requires Legal(run)
    ensures var st := Exec(run);
      && Debounced(st.trace, st.debounce)
      && (!st.closed ==>
           (Allowed(st.trace, Emission(p, st.now), st.debounce) <==> p in st.pending && Enabled(st, Wake(st.pending[p]))))
  {
    hide Exec, Debounced, LastAct, CountsMatch, TraceSound;
    RunsAreDebounced(run);
    RunsKeepInv(run);
    var st := Exec(run);
    assert LastEvent(st.trace, p) == if p in st.pending then Some(st.tasks[st.pending[p]].born) else None;
  }

  lemma RunsAreDebounced(run: Run)
    requires Legal(run)
    ensures Debounced(Exec(run).trace, Exec(run).debounce)
  {
    hide Exec;
    RunsKeepInv(run);
  }

  /** Events on a path are its emissions, the cancelled tasks and the live ones. At most one task is live; it
      is the one in the table and was made by the path's newest event. */
  lemma {:induction false} EventsSplit(run: Run, p: Path)
    requires Legal(run)
    ensures var st := Exec(run);
      && EventsOn(st.trace, p) == EmissionsOn(st.trace, p) + CountTasks(st.tasks, p, Cancelled) + CountTasks(st.tasks, p, Waiting)
      && CountTasks(st.tasks, p, Waiting) <= 1
      && (forall t: TaskId :: t < |st.tasks| && st.tasks[t].status == Waiting && st.tasks[t].path == p ==>
           p in st.pending && st.pending[p] == t && LastAct(st.trace, p) == Some(Event(p, st.tasks[t].born)))
  {
    hide Exec, CountTasks, LastAct, EventsOn, EmissionsOn, TraceSound;
    RunsKeepInv(run);
    var st := Exec(run);
    forall t: TaskId | t < |st.tasks| && st.tasks[t].status == Waiting && st.tasks[t].path == p
      ensures LastAct(st.trace, p) == Some(Event(p, st.tasks[t].born))
    {
      assert LastEvent(st.trace, p) == Some(st.tasks[t].born);
      LastActPath(st.trace, p);
    }
  }

  lemma LastActPath(trace: seq<Act>, p: Path)
    requires LastAct(trace, p).Some?
    ensures LastAct(trace, p).value.path == p
  {
  }

  /** Once no task is live in an open watcher, the last thing that happened to every path is its emission. */
  lemma {:induction false} IdleMeansEmitted(run: Run, p: Path)
    requires Legal(run) && !Exec(run).closed
    requires forall t :: 0 <= t < |Exec(run).tasks| ==> Exec(run).tasks[t].status != Waiting
    ensures var last := LastAct(Exec(run).trace, p); last.Some? ==> last.value.Emission?
  {
    hide Exec, CountsMatch, TraceSound, LastAct;
    RunsKeepInv(run);
    assert LastEvent(Exec(run).trace, p) == None;
  }

  /** What was emitted is, in order, what was handed out, at most one path in the listener's hands, and the queue. */
  lemma {:induction false} EmittedInOrder(run: Run)
    requires Legal(run)
    ensures var st := Exec(run); Emissions(st.trace) == st.yielded + Held(st.listener) + st.stable
  {
    hide Exec, CountsMatch;
    RunsKeepInv(run);
  }

  // The later run adds only steps of the listener.
  predicate ListenerOnly(run: Run, later: Run) {
    later == run || (later.Then? && (later.step == Get || later.step == Yield || later.step == Resume) && ListenerOnly(run, later.before))
  }

  lemma {:induction false} ListenerOnlyMore(a: Run, b: Run, c: Run)
    requires ListenerOnly(a, b) && ListenerOnly(b, c)
    ensures ListenerOnly(a, c)
  {
    if c != b { ListenerOnlyMore(a, b, c.before); }
  }

  // What the listener does next, and how much it still has to do.
  function ListenerStep(st: State): Step {
    match st.listener
    case Asking => Get
    case Holding(_) => Yield
    case Suspended => Resume
  }

  function ToDo(st: State): nat { 3 * |st.stable| + if st.listener.Holding? then 2 else if st.listener == Suspended then 1 else 0 }

  lemma ListenerGoesOn(st: State)
    requires !st.closed && st.consuming && (st.listener != Asking || st.stable != [])
    ensures Enabled(st, ListenerStep(st))
    ensures var after := Next(st, ListenerStep(st));
      && ToDo(after) < ToDo(st) && !after.closed && after.consuming && after.trace == st.trace
      && after.tasks == st.tasks && after.pending == st.pending && after.now == st.now
  {
  }

  /** Nothing keeps an open watcher from handing out: from every run the listener's own steps alone, taking a
      path, handing it out and asking again, bring it to where it waits with an empty queue and has handed
      out every path ever emitted, in order. */
  lemma {:induction false} AllIsHandedOut(run: Run) returns (later: Run)
    requires Legal(run) && !Exec(run).closed && Exec(run).consuming
    ensures Legal(later) && ListenerOnly(run, later)
    ensures var was, st := Exec(run), Exec(later);
      && st.stable == [] && st.listener == Asking && st.trace == was.trace && st.yielded == Emissions(was.trace)
      && st.tasks == was.tasks && st.pending == was.pending && st.now == was.now && !st.closed && st.consuming
    decreases ToDo(Exec(run))
  {
    hide Exec, Next, Enabled, Legal, Emissions, ToDo;
    var st := Exec(run);
    if st.listener == Asking && st.stable == [] {
      later := run;
      EmittedInOrder(run);
      assert ListenerOnly(run, run);
    } else {
      ListenerGoesOn(st);
      var next := OneMoreStep(run, ListenerStep(st));
      later := AllIsHandedOut(next);
      assert ListenerOnly(run, next) by { assert ListenerOnly(run, run); }
      ListenerOnlyMore(run, next, later);
    }
  }

  lemma OneMoreStep(run: Run, step: Step) returns (later: Run)
    requires Legal(run) && Enabled(Exec(run), step)
    ensures later == Then(run, step) && Legal(later) && Exec(later) == Next(Exec(run), step)
  {
    hide Next, Enabled;
    later := Then(run, step);
  }

  lemma WakeAt(st: State, p: Path)
    requires Inv(st) && !st.closed && p in st.pending
    requires forall t :: 0 <= t < |st.tasks| && st.tasks[t].status == Waiting ==> st.tasks[t].born + st.debounce <= st.now
    ensures Enabled(st, Wake(st.pending[p]))
    ensures var after := Next(st, Wake(st.pending[p]));
      && after.pending == st.pending - {p} && after.closed == st.closed && after.consuming == st.consuming && after.now == st.now
      && after.debounce == st.debounce && (forall q :: EventsOn(after.trace, q) == EventsOn(st.trace, q))
      && forall t :: 0 <= t < |after.tasks| && after.tasks[t].status == Waiting ==> after.tasks[t].born + after.debounce <= after.now
  {
    hide LastAct, Debounced, CountsMatch, TraceSound, TableShowsTrace, EventsOn;
    OneMoreAct(st.trace, Emission(st.tasks[st.pending[p]].path, st.now));
  }

  // With every interval over, all timers can wake.
  lemma {:induction false} AllWake(run: Run) returns (later: Run)
    requires Legal(run) && !Exec(run).closed && Exec(run).consuming
    requires forall t :: 0 <= t < |Exec(run).tasks| && Exec(run).tasks[t].status == Waiting ==>
      Exec(run).tasks[t].born + Exec(run).debounce <= Exec(run).now
    ensures Legal(later) && !Exec(later).closed && Exec(later).consuming && Exec(later).pending == map[]
    ensures Exec(later).now == Exec(run).now && forall q :: EventsOn(Exec(later).trace, q) == EventsOn(Exec(run).trace, q)
    decreases |Exec(run).pending|
  {
    hide Exec, Next, Enabled, Legal, Inv, EventsOn;
    var st := Exec(run);
    if st.pending == map[] {
      later := run;
    } else {
      RunsKeepInv(run);
      var p :| p in st.pending;
      WakeAt(st, p);
      var next := OneMoreStep(run, Wake(st.pending[p]));
      later := AllWake(next);
    }
  }

  lemma TickStep(st: State, to: Time)
    requires st.now <= to
    ensures Enabled(st, Tick(to)) && Next(st, Tick(to)) == st.(now := to)
  {
  }

  lemma BornStep(st: State, step: Step, t: TaskId)
    requires t < |Next(st, step).tasks| && (t < |st.tasks| ==> st.tasks[t].born <= st.now)
    ensures Next(st, step).tasks[t].born <= Next(st, step).now
  {
  }

  lemma {:induction false} BornInThePast(run: Run, t: TaskId)
    requires t < |Exec(run).tasks|
    ensures Exec(run).tasks[t].born <= Exec(run).now
  {
    hide Next;
    if run.Then? {
      if t < |Exec(run.before).tasks| { BornInThePast(run.before, t); }
      BornStep(Exec(run.before), run.step, t);
    }
  }

  /** No event is ever stuck: from every run of an open watcher, letting one interval pass without events lets
      every timer wake and every path with an event be emitted and handed out, the newest event of each
      included. */
  lemma {:induction false} EveryEventCanBeHandedOut(run: Run) returns (later: Run)
    requires Legal(run) && !Exec(run).closed && Exec(run).consuming && Exec(run).debounce >= 0.0
    ensures Legal(later) && Exec(later).now == Exec(run).now + Exec(run).debounce
    ensures forall p :: EventsOn(Exec(later).trace, p) == EventsOn(Exec(run).trace, p)
    ensures forall p :: LastAct(Exec(later).trace, p).Some? ==> LastAct(Exec(later).trace, p).value.Emission?
    ensures Exec(later).yielded == Emissions(Exec(later).trace)
  {
    hide Exec, Next, Enabled, Legal, EventsOn, LastAct, Emissions;
    var st := Exec(run);
    TickStep(st, st.now + st.debounce);
    var ticked := OneMoreStep(run, Tick(st.now + st.debounce));
    forall t: TaskId | t < |st.tasks| ensures st.tasks[t].born <= st.now { BornInThePast(run, t); }
    var woken := AllWake(ticked);
    later := AllIsHandedOut(woken);
    forall p ensures LastAct(Exec(later).trace, p).Some? ==> LastAct(Exec(later).trace, p).value.Emission? {
      NothingPending(woken);
      IdleMeansEmitted(woken, p);
    }
  }

  lemma NothingPending(run: Run)
    requires Legal(run) && Exec(run).pending == map[]
    ensures forall t :: 0 <= t < |Exec(run).tasks| ==> Exec(run).tasks[t].status != Waiting
  {
    hide Exec, LastAct, CountsMatch, TraceSound, TableShowsTrace;
    RunsKeepInv(run);
  }

  // The end

  ghost predicate Extends(run: Run, later: Run) { later == run || (later.Then? && Extends(run, later.before)) }

  lemma EndedStep(st: State, step: Step, p: Path)
    requires !st.consuming && Enabled(st, step)
    ensures var after := Next(st, step);
      && !after.consuming && after.yielded == st.yielded && EventsOn(after.trace, p) == EventsOn(st.trace, p)
      && (st.closed ==> after.closed)
  {
    hide EventsOn;
    if step.Wake? { OneMoreAct(st.trace, Emission(st.tasks[step.t].path, st.now)); }
  }

  /** Once the source of events has ended, or the listener, no event arrives and no path is handed out any
      more; and once the listener has ended nothing is emitted any more. */
  lemma {:induction false} NothingAfterTheEnd(run: Run, later: Run, p: Path)
    requires Legal(later) && Extends(run, later) && run.Then? && Legal(run) && (run.step == ConsumerEnds || run.step == Close)
    ensures !Exec(later).consuming && Exec(later).yielded == Exec(run).yielded
    ensures EventsOn(Exec(later).trace, p) == EventsOn(Exec(run).trace, p)
    ensures run.step == Close ==> Exec(later).closed && Exec(later).trace == Exec(run).trace
  {
    hide EventsOn, Next, Enabled, Inv;
    if later == run {
      EndStep(Exec(run.before), run.step);
    } else {
      NothingAfterTheEnd(run, later.before, p);
      EndedStep(Exec(later.before), later.step, p);
      RunsKeepInv(later.before);
      if run.step == Close { ClosedStep(Exec(later.before), later.step); }
    }
  }

  lemma EndStep(st: State, step: Step)
    requires Enabled(st, step) && (step == ConsumerEnds || step == Close)
    ensures !Next(st, step).consuming && (step == Close ==> Next(st, step).closed)
  {
  }

  lemma ClosedStep(st: State, step: Step)
    requires Inv(st) && st.closed && !st.consuming && Enabled(st, step)
    ensures Next(st, step).trace == st.trace
  {
    hide CountsMatch, TraceSound, TableShowsTrace;
  }

  /** Conversely every debounced trace is one the watcher can show. */
  lemma {:induction false} EveryTraceHappens(trace: seq<Act>, interval: Time) returns (run: Run)
    requires Debounced(trace, interval) && (trace != [] ==> trace[0].at >= 0.0)
    ensures Legal(run) && Exec(run).trace == trace && Exec(run).debounce == interval && !Exec(run).closed && Exec(run).consuming
    ensures Exec(run).now == if trace == [] then 0.0 else trace[|trace| - 1].at
  {
    hide Debounced, LastAct;
    if trace == [] {
      run := Start(interval);
    } else {
      var n := |trace| - 1;
      DebouncedParts(trace, interval);
      var before := EveryTraceHappens(trace[..n], interval);
      run := Shown(before, trace[n]);
      assert trace == trace[..n] + [trace[n]];
    }
  }

  lemma DebouncedParts(trace: seq<Act>, interval: Time)
    requires Debounced(trace, interval) && trace != []
    ensures var n := |trace| - 1;
      Debounced(trace[..n], interval) && Allowed(trace[..n], trace[n], interval) && (n > 0 ==> trace[n - 1].at <= trace[n].at)
  {
  }

  // One more act: time passes, then the event arrives or the path's task wakes.
  lemma Shown(before: Run, act: Act) returns (run: Run)
    requires Legal(before) && Exec(before).now <= act.at && !Exec(before).closed && Exec(before).consuming
    requires Allowed(Exec(before).trace, act, Exec(before).debounce)
    ensures Legal(run) && Exec(run).trace == Exec(before).trace + [act] && Exec(run).now == act.at
    ensures Exec(run).debounce == Exec(before).debounce && !Exec(run).closed && Exec(run).consuming
  {
    hide LastAct, Debounced, Inv;
    var ticked := Then(before, Tick(act.at));
    assert Legal(ticked);
    if act.Event? {
      run := Then(ticked, Arrive(act.path));
    } else {
      RefinesTrace(ticked, act.path);
      run := Then(ticked, Wake(Exec(ticked).pending[act.path]));
      RunsKeepInv(ticked);
      PendingPath(Exec(ticked), act.path);
    }
  }

  lemma PendingPath(st: State, p: Path)
    requires Inv(st) && p in st.pending
    ensures st.pending[p] < |st.tasks| && st.tasks[st.pending[p]].path == p
  {
  }
}
