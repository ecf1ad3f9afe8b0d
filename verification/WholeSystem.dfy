/** Socket server, registry and dispatcher together. Frames reach the registry through the shared queue;
    a dispatch lists the live senders once and then sends shard after shard, every try a step of its own,
    so that reconnections, expiries and other frames may come between any two tries. */
module WholeSystem {
  import opened Outcomes
  import opened Domain
  import opened Sorting
  import opened Wire
  import opened Sessions
  import Planning
  import Registry
  import Dispatcher
  import Uds
  import Binary64

  datatype Setup = Setup(
    expected: ProtoHash, timeout: Registry.Time, fec: FecParams, watchRoot: Path, targetHost: string, basePort: int)

  // A dispatch under way: `delivered` tells of the shards already decided, `attempt` counts tries of the next,
  // and `tries` is the history of all its tries.
  datatype Job = Job(plan: Plan, delivered: seq<bool>, attempt: nat, tries: seq<Dispatcher.Attempt>)

  // `calls` is the history of the calls made on the registry.

  datatype State = State(
    setup: Setup, net: Uds.State, now: Registry.Time, lastSeen: map<SenderId, Registry.Time>, loopAlive: bool,
    recorded: map<SessionId, seq<SenderId>>, used: set<SessionId>, job: Option<Job>, finished: seq<Job>,
    calls: seq<Registry.Call>)

  datatype Step =
    | Net(step: Uds.Step)
    | Tick(to: Registry.Time)
    | Handle
    | Begin(sessionId: SessionId, source: SourceFile, senders: seq<SenderId>)
    | Try

  function Initial(setup: Setup): State {
    State(setup, Uds.Initial(setup.expected), 0.0, map[], true, map[], {}, None, [], [])
  }

  // The live senders at this moment.
  function LiveIds(st: State): set<SenderId> { Registry.Fresh(st.lastSeen, st.now, st.setup.timeout).Keys }

  // A session id is drawn at random from 2^64; that it has not been drawn before is assumed.
  ghost predicate Enabled(st: State, step: Step) {
    match step
    case Net(step) => !step.Send? && !step.HandOver? && Uds.Enabled(st.net, step)
    case Tick(to) => st.now <= to
    case Handle => st.loopAlive && st.net.incoming != []
    case Begin(sessionId, _, senders) => st.job == None && sessionId !in st.used && IsSorted(senders, LiveIds(st))
    case Try => st.job.Some?
  }

  // What the frame handlers do to the registry and to the recorded sessions.

  function Heard(lastSeen: map<SenderId, Registry.Time>, id: SenderId, frame: Frame, now: Registry.Time): map<SenderId, Registry.Time> {
    if frame.SenderHello? || frame.Heartbeat? then lastSeen[id := now] else lastSeen
  }

  // The call a frame's handler makes on the registry, if any.
  function CallFor(id: SenderId, frame: Frame, now: Registry.Time): seq<Registry.Call> {
    if frame.SenderHello? || frame.Heartbeat? then [Registry.Register(id, now)] else []
  }

  function Completed(recorded: map<SessionId, seq<SenderId>>, frame: Frame): map<SessionId, seq<SenderId>> {
    if frame.SessionComplete? then recorded - {frame.sessionId} else recorded
  }

  function PlanFor(setup: Setup, sessionId: SessionId, source: SourceFile, senders: seq<SenderId>): Plan {
    Plan(sessionId, source, setup.fec, setup.watchRoot, setup.targetHost, setup.basePort, senders)
  }

  // Moves on to the next shard, and records the session once all are decided.
  function Decide(st: State, delivered: bool): State
    requires st.job.Some? && |st.job.value.delivered| < |st.job.value.plan.senders|
  {
    var job := st.job.value.(delivered := st.job.value.delivered + [delivered], attempt := 0);
    if |job.delivered| < |job.plan.senders| then st.(job := Some(job)) else
      var reached := Succeeded(job.plan, job.delivered);
      st.(job := None, finished := st.finished + [job],
          recorded := if reached == [] then st.recorded else st.recorded[job.plan.sessionId := reached])
  }

  // Listing the live senders drops the expired ones.
  function Purged(st: State): State {
    st.(lastSeen := Registry.Fresh(st.lastSeen, st.now, st.setup.timeout), calls := st.calls + [Registry.Query(st.now)])
  }

  function Unheard(st: State, id: SenderId): State {
    st.(lastSeen := st.lastSeen - {id}, calls := st.calls + [Registry.Remove(id, st.now)])
  }

  function Tried(st: State, attempt: Dispatcher.Attempt): State
    requires st.job.Some?
  {
    st.(job := Some(st.job.value.(tries := st.job.value.tries + [attempt])))
  }

  function Next(st: State, step: Step): State {
    match step
    case Net(step) => st.(net := Uds.Next(st.net, step))
    case Tick(to) => st.(now := to)
    case Handle =>
      if st.net.incoming == [] then st else
        var item := st.net.incoming[0];
        st.(net := Uds.Next(st.net, Uds.HandOver), loopAlive := st.loopAlive && item.frame != Undecodable,
            lastSeen := Heard(st.lastSeen, item.senderId, item.frame, st.now),
            calls := st.calls + CallFor(item.senderId, item.frame, st.now), recorded := Completed(st.recorded, item.frame))
    case Begin(sessionId, source, senders) =>
      var plan := PlanFor(st.setup, sessionId, source, senders);
      var purged := Purged(st);
      if senders == [] then purged
      else if st.setup.fec.BlockSize() <= 0 || Dispatcher.Refusal(plan).Some? then purged.(used := st.used + {sessionId})
      else purged.(used := st.used + {sessionId}, job := Some(Job(plan, [], 0, [])))
    case Try =>
      if st.job == None then st else
        var job := st.job.value;
        var n := |job.delivered|;
        if n >= |job.plan.senders| || !job.plan.Valid() then st else
          var to := job.plan.senders[n];
          var outcome := Uds.SendResult(st.net, to);
          var tried := Tried(st, Dispatcher.Attempt(to, job.plan.Payload(n), outcome));
          var sent := tried.(net := Uds.Next(st.net, Uds.Send(to, job.plan.Payload(n))));
          if outcome == Delivered then Decide(sent, true)
          else if outcome == UnknownSender then Decide(Unheard(sent, to), false)
          else if job.attempt + 1 < Dispatcher.MAX_DISPATCH_ATTEMPTS then
            sent.(job := Some(tried.job.value.(attempt := job.attempt + 1)))
          else Decide(sent, false)
  }

  // The deliveries of one session, over all connections, in the order they were accepted.
  function InSession(log: seq<Uds.Delivery>, sessionId: SessionId): seq<Uds.Delivery> {
    if log == [] then [] else
      var n := |log| - 1;
      InSession(log[..n], sessionId) + if log[n].payload.manifest.sessionId == sessionId then [log[n]] else []
  }

  function Messages(log: seq<Uds.Delivery>): seq<AssignSession> {
    seq(|log|, i requires 0 <= i < |log| => log[i].payload)
  }

  function Addressees(log: seq<Uds.Delivery>): seq<SenderId> {
    seq(|log|, i requires 0 <= i < |log| => log[i].to)
  }

  lemma InSessionMore(log: seq<Uds.Delivery>, d: Uds.Delivery, sessionId: SessionId)
    ensures InSession(log + [d], sessionId) == InSession(log, sessionId) + if d.payload.manifest.sessionId == sessionId then [d] else []
  {
    assert (log + [d])[..|log|] == log;
  }

  lemma {:induction false} InSessionNone(log: seq<Uds.Delivery>, sessionId: SessionId)
    requires forall i :: 0 <= i < |log| ==> log[i].payload.manifest.sessionId != sessionId
    ensures InSession(log, sessionId) == []
  {
    if log != [] { InSessionNone(log[..|log| - 1], sessionId); }
  }

  // What every step keeps

  ghost predicate AllVerified(st: State, ids: seq<SenderId>) {
    forall i :: 0 <= i < |ids| ==> Uds.Verified(st.net, ids[i])
  }

  ghost predicate JobSound(st: State, job: Job) {
    && job.plan.Valid()
    && job.plan == PlanFor(st.setup, job.plan.sessionId, job.plan.source, job.plan.senders)
    && |job.delivered| <= |job.plan.senders|
    && job.attempt < Dispatcher.MAX_DISPATCH_ATTEMPTS
    && StrictlyIncreasing(job.plan.senders)
    && AllVerified(st, job.plan.senders)
    && job.plan.sessionId in st.used
  }

  // The session's deliveries so far are those of the senders counted as reached, in order.
  ghost predicate JobAccounted(st: State, job: Job) {
    var log := InSession(st.net.accepted, job.plan.sessionId);
    && job.plan.Valid() && |job.delivered| <= |job.plan.senders|
    && Messages(log) == Accepted(job.plan, job.delivered)
    && Addressees(log) == Succeeded(job.plan, job.delivered)
  }

  lemma SameNet(st: State, after: State)
    requires after.net == st.net && after.setup == st.setup && st.used <= after.used
    ensures forall job :: JobSound(st, job) ==> JobSound(after, job)
    ensures forall job :: JobAccounted(st, job) ==> JobAccounted(after, job)
  {
    hide Uds.Verified, InSession, Accepted, Succeeded, Plan.Valid;
    forall job | JobSound(st, job) ensures JobSound(after, job) { }
  }

  ghost predicate FinishedSound(st: State) {
    && (forall i :: 0 <= i < |st.finished| ==>
         JobSound(st, st.finished[i]) && |st.finished[i].delivered| == |st.finished[i].plan.senders| && JobAccounted(st, st.finished[i]))
    && (forall i, j :: 0 <= i < j < |st.finished| ==> st.finished[i].plan.sessionId != st.finished[j].plan.sessionId)
  }

  ghost predicate JobCurrent(st: State) {
    st.job.Some? ==>
      && JobSound(st, st.job.value) && |st.job.value.delivered| < |st.job.value.plan.senders| && JobAccounted(st, st.job.value)
      && forall i :: 0 <= i < |st.finished| ==> st.finished[i].plan.sessionId != st.job.value.plan.sessionId
  }

  ghost predicate SessionsUsed(st: State) {
    forall i :: 0 <= i < |st.net.accepted| ==> st.net.accepted[i].payload.manifest.sessionId in st.used
  }

  // A recorded session is a finished one, under the senders it reached.
  ghost predicate RecordedSound(st: State) {
    forall id :: id in st.recorded ==> exists i :: 0 <= i < |st.finished| && RecordOf(st.finished[i], id, st.recorded[id])
  }

  ghost predicate RecordOf(job: Job, id: SessionId, reached: seq<SenderId>) {
    && job.plan.sessionId == id && |job.delivered| <= |job.plan.senders|
    && reached == Succeeded(job.plan, job.delivered) && reached != []
  }

  ghost predicate RegistryVerified(st: State) {
    forall id :: id in st.lastSeen ==> Uds.Verified(st.net, id)
  }

  ghost predicate Inv(st: State) {
    && Uds.Inv(st.net)
    && st.net.expected == st.setup.expected
    && RegistryVerified(st)
    && SessionsUsed(st)
    && JobCurrent(st)
    && FinishedSound(st)
    && RecordedSound(st)
  }

  lemma NetKeeps(st: State, step: Uds.Step)
    requires Inv(st) && !step.Send?
    ensures Inv(st.(net := Uds.Next(st.net, step)))
  {
    hide Uds.Next, Uds.Inv, Uds.Verified, Plan.Valid, Accepted, Succeeded, InSession;
    Uds.NextKeeps(st.net, step);
    Uds.ExpectedFixed(st.net, step);
    AcceptedOnlyBySend(st.net, step);
    var after := st.(net := Uds.Next(st.net, step));
    forall id | Uds.Verified(st.net, id) ensures Uds.Verified(after.net, id) { Uds.VerifiedPersists(st.net, step, id); }
    forall job | JobSound(st, job) ensures JobSound(after, job) { }
  }

  lemma AcceptedOnlyBySend(st: Uds.State, step: Uds.Step)
    requires !step.Send?
    ensures Uds.Next(st, step).accepted == st.accepted
  {
  }

  lemma HandleKeeps(st: State)
    requires Inv(st) && st.net.incoming != []
    ensures Inv(Next(st, Handle))
  {
    hide Uds.Next, Uds.Verified, Plan.Valid, Accepted, Succeeded, InSession, Uds.SendsConserved, Uds.FramesConserved, Uds.ConnValid;
    var item := st.net.incoming[0];
    assert (st.net.handed + st.net.incoming)[|st.net.handed|] == item;
    Uds.SenderIdsAreVerified(st.net, item.conn);
    NetKeeps(st, Uds.HandOver);
    Uds.VerifiedPersists(st.net, Uds.HandOver, item.senderId);
    var moved, after := st.(net := Uds.Next(st.net, Uds.HandOver)), Next(st, Handle);
    forall job | JobSound(moved, job) ensures JobSound(after, job) { }
  }

  lemma PurgeKeeps(st: State)
    requires Inv(st)
    ensures Inv(Purged(st))
  {
    hide Uds.Inv, Uds.Verified, InSession, Accepted, Succeeded, Plan.Valid;
    var after := Purged(st);
    forall job | JobSound(st, job) ensures JobSound(after, job) { }
  }

  lemma UseKeeps(st: State, sessionId: SessionId)
    requires Inv(st)
    ensures Inv(st.(used := st.used + {sessionId}))
  {
    hide Uds.Inv, Uds.Verified, InSession, Accepted, Succeeded, Plan.Valid;
    var after := st.(used := st.used + {sessionId});
    forall job | JobSound(st, job) ensures JobSound(after, job) { }
  }

  // A fresh session starts with no deliveries.
  lemma OpenKeeps(st: State, plan: Plan)
    requires Inv(st) && st.job == None && plan.Valid() && plan.senders != []
    requires plan == PlanFor(st.setup, plan.sessionId, plan.source, plan.senders) && plan.sessionId in st.used
    requires StrictlyIncreasing(plan.senders) && AllVerified(st, plan.senders)
    requires InSession(st.net.accepted, plan.sessionId) == []
    requires forall i :: 0 <= i < |st.finished| ==> st.finished[i].plan.sessionId != plan.sessionId
    ensures Inv(st.(job := Some(Job(plan, [], 0, []))))
  {
    hide Uds.Inv, Uds.Verified, InSession, Plan.Valid;
    var job := Job(plan, [], 0, []);
    assert Messages([]) == [] && Addressees([]) == [];
    SameNet(st, st.(job := Some(job)));
  }

  lemma BeginKeeps(st: State, sessionId: SessionId, source: SourceFile, senders: seq<SenderId>)
    requires Inv(st) && Enabled(st, Begin(sessionId, source, senders))
    ensures Inv(Next(st, Begin(sessionId, source, senders)))
  {
    hide Uds.Inv, Uds.Verified, InSession, Plan.Valid, Dispatcher.Refusal, Accepted, Succeeded;
    var plan := PlanFor(st.setup, sessionId, source, senders);
    var purged := Purged(st);
    var used := purged.(used := purged.used + {sessionId});
    PurgeKeeps(st);
    UseKeeps(purged, sessionId);
    if senders == [] {
      assert Next(st, Begin(sessionId, source, senders)) == purged;
    } else if st.setup.fec.BlockSize() <= 0 || Dispatcher.Refusal(plan).Some? {
      assert Next(st, Begin(sessionId, source, senders)) == used;
    } else {
      assert Next(st, Begin(sessionId, source, senders)) == used.(job := Some(Job(plan, [], 0, [])));
      ValidUnlessRefused(plan);
      InSessionNone(st.net.accepted, sessionId);
      forall i | 0 <= i < |senders| ensures Uds.Verified(st.net, senders[i]) { assert senders[i] in senders; }
      OpenKeeps(used, plan);
    }
  }

  lemma ValidUnlessRefused(plan: Plan)
    requires plan.fec.BlockSize() > 0 && plan.senders != [] && Dispatcher.Refusal(plan) == None
    ensures plan.Valid()
  {
  }

  lemma SendLog(st: Uds.State, to: SenderId, payload: AssignSession)
    requires Uds.Inv(st)
    ensures var after := Uds.Next(st, Uds.Send(to, payload));
      if Uds.SendResult(st, to) == Delivered then
        exists c: Uds.ConnId :: after.accepted == st.accepted + [Uds.Delivery(c, to, payload)]
      else after == st
  {
    hide Uds.SendsConserved, Uds.FramesConserved, Uds.ConnValid;
  }

  lemma DecideKeeps(st: State, delivered: bool)
    requires Uds.Inv(st.net) && st.net.expected == st.setup.expected && RegistryVerified(st) && SessionsUsed(st)
    requires FinishedSound(st) && RecordedSound(st)
    requires st.job.Some? && JobSound(st, st.job.value) && |st.job.value.delivered| < |st.job.value.plan.senders|
    requires JobAccounted(st, st.job.value.(delivered := st.job.value.delivered + [delivered], attempt := 0))
    requires forall i :: 0 <= i < |st.finished| ==> st.finished[i].plan.sessionId != st.job.value.plan.sessionId
    ensures Inv(Decide(st, delivered))
  {
    hide Uds.Inv, Uds.Verified, InSession, Accepted, Succeeded, Plan.Valid, JobAccounted, AllVerified, FinishedSound, RecordedSound;
    var after := Decide(st, delivered);
    SameNet(st, after);
    if after.job == None {
      FinishKeeps(st, delivered);
    } else {
      CurrentKeeps(st, after);
    }
  }

  lemma CurrentKeeps(st: State, after: State)
    requires FinishedSound(st) && RecordedSound(st) && after == st.(job := after.job)
    ensures FinishedSound(after) && RecordedSound(after)
  {
    hide Uds.Inv, Uds.Verified, InSession, Accepted, Succeeded, Plan.Valid, JobAccounted, AllVerified;
    SameNet(st, after);
  }

  lemma FinishKeeps(st: State, delivered: bool)
    requires Uds.Inv(st.net) && st.net.expected == st.setup.expected && RegistryVerified(st) && SessionsUsed(st)
    requires FinishedSound(st) && RecordedSound(st)
    requires st.job.Some? && JobSound(st, st.job.value) && |st.job.value.delivered| < |st.job.value.plan.senders|
    requires JobAccounted(st, st.job.value.(delivered := st.job.value.delivered + [delivered], attempt := 0))
    requires forall i :: 0 <= i < |st.finished| ==> st.finished[i].plan.sessionId != st.job.value.plan.sessionId
    requires Decide(st, delivered).job == None
    ensures FinishedSound(Decide(st, delivered)) && RecordedSound(Decide(st, delivered))
  {
    hide Uds.Inv, Uds.Verified, InSession, Accepted, Succeeded, Plan.Valid, JobAccounted, AllVerified;
    var after := Decide(st, delivered);
    var job := st.job.value.(delivered := st.job.value.delivered + [delivered], attempt := 0);
    SameNet(st, after);
    forall id | id in after.recorded
      ensures exists i :: 0 <= i < |after.finished| && RecordOf(after.finished[i], id, after.recorded[id])
    {
      if id in st.recorded && after.recorded[id] == st.recorded[id] {
        var i :| 0 <= i < |st.finished| && RecordOf(st.finished[i], id, st.recorded[id]);
        assert after.finished[i] == st.finished[i];
      } else {
        assert RecordOf(after.finished[|st.finished|], id, after.recorded[id]);
      }
    }
  }

  // A try that is accepted adds one delivery, which only its own session counts.
  lemma DeliveredKeeps(st: State, c: Uds.ConnId, after: State)
    requires Inv(st) && st.job.Some? && st.job.value.plan.Valid() && |st.job.value.delivered| < |st.job.value.plan.senders|
    requires after == st.(net := after.net) && Uds.Inv(after.net) && after.net.expected == st.setup.expected
    requires forall id :: Uds.Verified(st.net, id) ==> Uds.Verified(after.net, id)
    requires var job := st.job.value; var n := |job.delivered|;
      after.net.accepted == st.net.accepted + [Uds.Delivery(c, job.plan.senders[n], job.plan.Payload(n))]
    ensures RegistryVerified(after) && SessionsUsed(after) && FinishedSound(after) && RecordedSound(after)
    ensures JobSound(after, st.job.value)
    ensures JobAccounted(after, st.job.value.(delivered := st.job.value.delivered + [true], attempt := 0))
  {
    hide Uds.Inv, Uds.Verified, InSession, Accepted, Succeeded, Plan.Valid, Uds.Next;
    var job := st.job.value;
    var n := |job.delivered|;
    var d := Uds.Delivery(c, job.plan.senders[n], job.plan.Payload(n));
    assert d.payload.manifest.sessionId == job.plan.sessionId;
    OneMoreFlag(job.plan, job.delivered, true);
    InSessionMore(st.net.accepted, d, job.plan.sessionId);
    forall i | 0 <= i < |st.finished|
      ensures InSession(after.net.accepted, st.finished[i].plan.sessionId) == InSession(st.net.accepted, st.finished[i].plan.sessionId)
    {
      InSessionMore(st.net.accepted, d, st.finished[i].plan.sessionId);
    }
    forall job | JobSound(st, job) ensures JobSound(after, job) { }
  }

  lemma UndeliveredAccounted(st: State, job: Job)
    requires job.plan.Valid() && |job.delivered| < |job.plan.senders| && JobAccounted(st, job)
    ensures JobAccounted(st, job.(delivered := job.delivered + [false], attempt := 0))
  {
    hide InSession, Accepted, Succeeded, Plan.Valid;
    OneMoreFlag(job.plan, job.delivered, false);
  }

  lemma UnheardKeeps(st: State, to: SenderId)
    requires Inv(st)
    ensures Inv(Unheard(st, to))
  {
    hide Uds.Inv, Uds.Verified, InSession, Accepted, Succeeded, Plan.Valid;
    var after := Unheard(st, to);
    forall job | JobSound(st, job) ensures JobSound(after, job) { }
  }

  lemma TriedKeeps(st: State, attempt: Dispatcher.Attempt)
    requires Inv(st) && st.job.Some?
    ensures Inv(Tried(st, attempt))
  {
    hide Uds.Inv, Uds.Verified, InSession, Accepted, Succeeded, Plan.Valid;
    var after := Tried(st, attempt);
    forall job | JobSound(st, job) ensures JobSound(after, job) { }
  }

  lemma TryKeeps(before: State)
    requires Inv(before) && before.job.Some?
    ensures Inv(Next(before, Try))
  {
    hide Uds.Inv, Uds.Verified, Uds.Next, InSession, Accepted, Succeeded, Decide, Plan.Valid, Uds.SendResult, JobAccounted, FinishedSound,
      RegistryVerified, SessionsUsed, RecordedSound;
    var n := |before.job.value.delivered|;
    var to, payload := before.job.value.plan.senders[n], before.job.value.plan.Payload(n);
    var outcome := Uds.SendResult(before.net, to);
    var st := Tried(before, Dispatcher.Attempt(to, payload, outcome));
    TriedKeeps(before, Dispatcher.Attempt(to, payload, outcome));
    var job := st.job.value;
    SendLog(st.net, to, payload);
    if outcome == Delivered {
      var c: Uds.ConnId :| Uds.Next(st.net, Uds.Send(to, payload)).accepted == st.net.accepted + [Uds.Delivery(c, to, payload)];
      var sent := st.(net := Uds.Next(st.net, Uds.Send(to, payload)));
      Uds.NextKeeps(st.net, Uds.Send(to, payload));
      Uds.ExpectedFixed(st.net, Uds.Send(to, payload));
      forall id | Uds.Verified(st.net, id) ensures Uds.Verified(sent.net, id) { Uds.VerifiedPersists(st.net, Uds.Send(to, payload), id); }
      DeliveredKeeps(st, c, sent);
      DecideKeeps(sent, true);
    } else if outcome == UnknownSender {
      var dropped := Unheard(st, to);
      UnheardKeeps(st, to);
      UndeliveredAccounted(dropped, job);
      DecideKeeps(dropped, false);
    } else if job.attempt + 1 < Dispatcher.MAX_DISPATCH_ATTEMPTS {
      RetryKeeps(st);
    } else {
      UndeliveredAccounted(st, job);
      DecideKeeps(st, false);
    }
  }

  lemma RetryKeeps(st: State)
    requires Inv(st) && st.job.Some? && st.job.value.attempt + 1 < Dispatcher.MAX_DISPATCH_ATTEMPTS
    ensures Inv(st.(job := Some(st.job.value.(attempt := st.job.value.attempt + 1))))
  {
    hide Uds.Inv, Uds.Verified, InSession, Accepted, Succeeded, Plan.Valid;
    var after := st.(job := Some(st.job.value.(attempt := st.job.value.attempt + 1)));
    forall job | JobSound(st, job) ensures JobSound(after, job) { }
  }

  lemma TickKeeps(st: State, to: Registry.Time)
    requires Inv(st)
    ensures Inv(st.(now := to))
  {
    hide Uds.Inv, Uds.Verified, InSession, Accepted, Succeeded, Plan.Valid;
    forall job | JobSound(st, job) ensures JobSound(st.(now := to), job) { }
  }

  lemma {:induction false} NextKeeps(st: State, step: Step)
    requires Inv(st) && Enabled(st, step)
    ensures Inv(Next(st, step))
  {
    hide Inv;
    match step
    case Net(step) => NetKeeps(st, step);
    case Tick(to) => TickKeeps(st, to);
    case Handle => HandleKeeps(st);
    case Begin(sessionId, source, senders) => BeginKeeps(st, sessionId, source, senders);
    case Try => TryKeeps(st);
  }

  // Runs

  datatype Run = Start(setup: Setup) | Then(before: Run, step: Step)

  function Exec(run: Run): State {
    match run
    case Start(setup) => Initial(setup)
    case Then(before, step) => Next(Exec(before), step)
  }

  ghost predicate Legal(run: Run) { run.Then? ==> Legal(run.before) && Enabled(Exec(run.before), run.step) }

  lemma {:induction false} RunsKeepInv(run: Run)
    requires Legal(run)
    ensures Inv(Exec(run))
  {
    hide Inv, Enabled, Next;
    match run
    case Start(setup) => InitialInv(setup);
    case Then(before, step) =>
      RunsKeepInv(before);
      NextKeeps(Exec(before), step);
  }

  lemma InitialInv(setup: Setup)
    ensures Inv(Initial(setup))
  {
  }

  // What a step of the whole is to the socket server.
  ghost function NetStep(st: State, step: Step): Option<Uds.Step> {
    match step
    case Net(step) => Some(step)
    case Handle => Some(Uds.HandOver)
    case Try =>
      if st.job.Some? && |st.job.value.delivered| < |st.job.value.plan.senders| && st.job.value.plan.Valid() then
        var job := st.job.value;
        Some(Uds.Send(job.plan.senders[|job.delivered|], job.plan.Payload(|job.delivered|)))
      else None
    case _ => None
  }

  // The run of the socket server inside a run of the whole.
  ghost function NetRun(run: Run): Uds.Run {
    match run
    case Start(setup) => Uds.Start(setup.expected)
    case Then(before, step) =>
      match NetStep(Exec(before), step)
      case Some(netStep) => Uds.Then(NetRun(before), netStep)
      case None => NetRun(before)
  }

  lemma NetStepMatches(st: State, step: Step)
    requires Enabled(st, step)
    ensures match NetStep(st, step)
      case Some(netStep) => Uds.Enabled(st.net, netStep) && Next(st, step).net == Uds.Next(st.net, netStep)
      case None => Next(st, step).net == st.net
  {
    hide Uds.Next, Plan.Valid, Accepted, Succeeded, Uds.SendResult, Dispatcher.Refusal, Registry.Fresh;
  }

  /** Everything proved of the socket server's runs holds inside the whole system: its part of any run is
      one of its own runs, with the dispatcher's tries as the calls of `send`. */
  lemma {:induction false} NetRunMatches(run: Run)
    requires Legal(run)
    ensures Uds.Legal(NetRun(run)) && Uds.Exec(NetRun(run)) == Exec(run).net
  {
    hide Uds.Next, Next, NetStep, Enabled;
    if run.Then? {
      NetRunMatches(run.before);
      NetStepMatches(Exec(run.before), run.step);
    }
  }

  /** Every id among the peers, in the registry, in a dispatch under way or finished, or in a recorded session
      belongs to a connection whose first frame was that id's hello with the expected hash. */
  lemma {:induction false} EveryIdIsVerified(run: Run, id: SenderId)
    requires Legal(run)
    ensures var st := Exec(run);
      (id in st.net.peers || id in st.lastSeen
        || (st.job.Some? && id in st.job.value.plan.senders)
        || (exists job :: job in st.finished && id in job.plan.senders)
        || (exists session :: session in st.recorded && id in st.recorded[session]))
      ==> Uds.SaidHelloFirst(NetRun(run), id) && Uds.Expected(NetRun(run)) == st.setup.expected
  {
    hide Uds.Verified, Uds.SaidHelloFirst, NetRun, Uds.Exec, Uds.Legal, Legal, Exec, Succeeded, Accepted, InSession, Uds.SendsConserved, Uds.FramesConserved, Uds.ConnValid;
    RunsKeepInv(run);
    var st := Exec(run);
    if id in st.net.peers { Uds.SenderIdsAreVerified(st.net, st.net.peers[id]); }
    if session :| session in st.recorded && id in st.recorded[session] {
      var i :| 0 <= i < |st.finished| && RecordOf(st.finished[i], session, st.recorded[session]);
      Dispatcher.SucceededAreSome(st.finished[i].plan, st.finished[i].delivered, id);
    }
    NetRunMatches(run);
    Uds.RunsKeepInv(NetRun(run));
    if Uds.Verified(st.net, id) { Uds.VerifiedSaidHello(NetRun(run), id); }
  }

  /** Over all connections, with retries and reconnections, the messages of a session in any queue are, in
      order, one for each sender counted as reached and addressed to it; no sender has two, all carry the
      number of senders listed at the start, and none of them has a message exactly when the dispatch
      reports no session. */
  lemma {:induction false} AtMostOneAssignment(run: Run, job: Job)
    requires Legal(run)
    requires job in Exec(run).finished || Exec(run).job == Some(job)
    ensures var log := InSession(Exec(run).net.accepted, job.plan.sessionId);
      && job.plan.Valid() && |job.delivered| <= |job.plan.senders|
      && Addressees(log) == Succeeded(job.plan, job.delivered)
      && Messages(log) == Accepted(job.plan, job.delivered)
      && (forall i, j :: 0 <= i < j < |log| ==> log[i].to != log[j].to)
      && (forall i :: 0 <= i < |log| ==> log[i].payload.totalSenders == |job.plan.senders|)
      && (Succeeded(job.plan, job.delivered) == [] <==> log == [])
  {
    hide Exec, Uds.Inv, Uds.Verified, InSession, Plan.Valid;
    RunsKeepInv(run);
    AcceptedAt(job.plan, job.delivered);
    WherePositions(job.delivered, true);
    var log := InSession(Exec(run).net.accepted, job.plan.sessionId);
    assert |Messages(log)| == |log| == |Addressees(log)|;
    forall i | 0 <= i < |log| ensures log[i].to == Addressees(log)[i] && log[i].payload == Messages(log)[i] { }
  }

  /** When a dispatch is over, the bytes transmitted under the messages of its session that reached a queue
      and the bytes of its lost shards are pairwise disjoint and make up the file, and the block counts add
      up, however the senders came and went in between. */
  lemma {:induction false} FinishedDispatchConserves(run: Run, job: Job)
    requires Legal(run) && job in Exec(run).finished
    requires job.plan.fec.Validated() && job.plan.source.sizeBytes < Binary64.TWO_TO_THE_53
    ensures
      var messages := Messages(InSession(Exec(run).net.accepted, job.plan.sessionId));
      && job.plan.Valid() && |job.delivered| == |job.plan.senders|
      && (forall a :: a in messages ==> a.totalSenders > 0 && BlockWidth(a) > 0)
      && Partition(Pieces(messages, Lost(job.plan, job.delivered), job.plan.source.sizeBytes, job.plan.fec.BlockSize()), job.plan.source.sizeBytes)
      && TransmittedCount(messages) + LostBlockCount(Lost(job.plan, job.delivered)) == job.plan.TotalBlocks()
  {
    hide Exec, Uds.Inv, Uds.Verified, InSession, Plan.Valid, Pieces, Partition, TransmittedCount, LostBlockCount, Lost;
    RunsKeepInv(run);
    BytesConserved(job.plan, job.delivered);
    BlocksConserved(job.plan, job.delivered);
  }
}
