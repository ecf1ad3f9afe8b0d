/** What the histories of a run of the whole system say: the registry is the lazy table of the calls made on
    it, each dispatch is the dispatcher's own loop under some outcome of every try, and the incoming loop
    lives as long as every frame could be decoded. */
module SystemHistories {
  import opened Outcomes
  import opened Domain
  import opened Sorting
  import opened Wire
  import opened Sessions
  import opened WholeSystem
  import D = Dispatcher
  import Registry
  import Uds

  // The registry's calls

  ghost predicate RegistryIs(st: State) {
    st.lastSeen == Registry.Lazy(st.calls, st.setup.timeout) && Registry.Monotone(st.calls, st.now)
  }

  lemma OneMoreCall(calls: seq<Registry.Call>, call: Registry.Call, timeout: Registry.Time)
    requires Registry.Monotone(calls, call.at)
    ensures Registry.Monotone(calls + [call], call.at)
    ensures Registry.Lazy(calls + [call], timeout) ==
      if call.Query? then Registry.Fresh(Registry.Lazy(calls, timeout), call.at, timeout)
      else Registry.Apply(Registry.Lazy(calls, timeout), call)
  {
    assert (calls + [call])[..|calls|] == calls;
  }

  // Deciding a shard concerns neither the registry nor the server.
  lemma DecideKeepsRest(st: State, delivered: bool)
    requires st.job.Some? && |st.job.value.delivered| < |st.job.value.plan.senders|
    ensures var after := Decide(st, delivered);
      && after.setup == st.setup && after.now == st.now && after.lastSeen == st.lastSeen && after.calls == st.calls
      && after.net == st.net && after.loopAlive == st.loopAlive
  {
    hide Succeeded;
  }

  // What a try does to the rest.
  lemma TryKeepsRest(st: State)
    requires st.job.Some?
    ensures var after := Next(st, Try);
      && after.setup == st.setup && after.now == st.now && after.loopAlive == st.loopAlive
      && (after.net == st.net || exists to, payload :: after.net == Uds.Next(st.net, Uds.Send(to, payload)))
      && ((after.lastSeen == st.lastSeen && after.calls == st.calls)
          || exists id :: after.lastSeen == st.lastSeen - {id} && after.calls == st.calls + [Registry.Remove(id, st.now)])
  {
    hide Uds.Next, Uds.SendResult, Plan.Valid, Decide;
    var job := st.job.value;
    var n := |job.delivered|;
    if n < |job.plan.senders| && job.plan.Valid() {
      var to, payload := job.plan.senders[n], job.plan.Payload(n);
      var outcome := Uds.SendResult(st.net, to);
      var sent := Tried(st, D.Attempt(to, payload, outcome)).(net := Uds.Next(st.net, Uds.Send(to, payload)));
      DecideKeepsRest(sent, true);
      DecideKeepsRest(sent, false);
      DecideKeepsRest(Unheard(sent, to), false);
      assert Next(st, Try).net == Uds.Next(st.net, Uds.Send(to, payload));
    }
  }

  // What a step does to the parts the registry's history speaks of.
  lemma CallsStep(st: State, step: Step)
    requires Enabled(st, step)
    ensures CallsKept(st, Next(st, step))
  {
    hide Uds.Next, Uds.Enabled, Plan.Valid, D.Refusal, Registry.Fresh;
    match step
    case Handle => HandleCalls(st);
    case Begin(_, _, _) => assert Called(st, Next(st, step), Registry.Query(st.now));
    case Try => TryCalls(st);
    case _ =>
  }

  lemma HandleCalls(st: State)
    requires Enabled(st, Handle)
    ensures CallsKept(st, Next(st, Handle))
  {
    hide Uds.Next;
    var item := st.net.incoming[0];
    if item.frame.SenderHello? || item.frame.Heartbeat? {
      assert Called(st, Next(st, Handle), Registry.Register(item.senderId, st.now));
    }
  }

  lemma TryCalls(st: State)
    requires st.job.Some?
    ensures CallsKept(st, Next(st, Try))
  {
    hide Next, Uds.Next;
    TryKeepsRest(st);
    var after := Next(st, Try);
    if !(after.lastSeen == st.lastSeen && after.calls == st.calls) {
      var id :| after.lastSeen == st.lastSeen - {id} && after.calls == st.calls + [Registry.Remove(id, st.now)];
      assert Called(st, after, Registry.Remove(id, st.now));
    }
  }

  // No call, or one made now.
  ghost predicate CallsKept(st: State, after: State) {
    && after.setup == st.setup && st.now <= after.now
    && ((after.lastSeen == st.lastSeen && after.calls == st.calls)
        || (after.now == st.now && exists call: Registry.Call :: Called(st, after, call)))
  }

  ghost predicate Called(st: State, after: State, call: Registry.Call) {
    && call.at == st.now && after.calls == st.calls + [call]
    && after.lastSeen ==
         if call.Query? then Registry.Fresh(st.lastSeen, call.at, st.setup.timeout) else Registry.Apply(st.lastSeen, call)
  }

  /** In every run of the whole the registry is the lazy table of its calls; so the senders a dispatch lists
      are exactly those whose last hello or heartbeat no removal follows and is younger than the timeout. */
  lemma {:induction false} RegistryIsLazy(run: Run, id: SenderId)
    requires Legal(run)
    ensures var st := Exec(run);
      && st.lastSeen == Registry.Lazy(st.calls, st.setup.timeout) && Registry.Monotone(st.calls, st.now)
      && (id in LiveIds(st) <==> Registry.Alive(st.calls, id, st.now, st.setup.timeout))
  {
    hide Next, Enabled, Registry.Lazy, Registry.Monotone, Registry.Alive, Called;
    RegistryHistory(run);
    var st := Exec(run);
    Registry.LazyRefinesEager(st.calls, st.now, st.setup.timeout);
  }

  lemma {:induction false} RegistryHistory(run: Run)
    requires Legal(run)
    ensures RegistryIs(Exec(run))
  {
    hide Next, Enabled, Registry.Fresh, Registry.Apply, CallsKept, RegistryIs;
    if run.Then? {
      RegistryHistory(run.before);
      CallsStep(Exec(run.before), run.step);
      RegistryKept(Exec(run.before), Exec(run));
    } else {
      NoCalls(run);
    }
  }

  lemma NoCalls(run: Run)
    requires run.Start?
    ensures RegistryIs(Exec(run))
  {
  }

  lemma RegistryKept(st: State, after: State)
    requires RegistryIs(st) && CallsKept(st, after)
    ensures RegistryIs(after)
  {
    if after.lastSeen == st.lastSeen && after.calls == st.calls {
      Registry.MonotoneLater(st.calls, st.now, after.now);
    } else {
      var call: Registry.Call :| Called(st, after, call);
      OneMoreCall(st.calls, call, st.setup.timeout);
    }
  }

  // The incoming loop

  ghost predicate AllDecoded(items: seq<Uds.Item>) { forall i :: 0 <= i < |items| ==> items[i].frame != Undecodable }

  lemma HandedByHandOver(st: Uds.State, step: Uds.Step)
    requires !step.HandOver?
    ensures Uds.Next(st, step).handed == st.handed
  {
  }

  // A step that handles no frame hands none over.
  lemma OnlyHandleHands(st: State, step: Step)
    requires Enabled(st, step) && step != Handle
    ensures Next(st, step).net.handed == st.net.handed && Next(st, step).loopAlive == st.loopAlive
  {
    hide Uds.Next, Uds.SendResult, Plan.Valid, D.Refusal, Registry.Fresh, Decide;
    match step
    case Net(netStep) => HandedByHandOver(st.net, netStep);
    case Try =>
      TryKeepsRest(st);
      if Next(st, step).net != st.net {
        var to, payload :| Next(st, step).net == Uds.Next(st.net, Uds.Send(to, payload));
        HandedByHandOver(st.net, Uds.Send(to, payload));
      }
    case _ =>
  }

  lemma HandedStep(st: State, step: Step)
    requires Enabled(st, step) && (st.loopAlive <==> AllDecoded(st.net.handed))
    ensures Next(st, step).loopAlive <==> AllDecoded(Next(st, step).net.handed)
  {
    hide Uds.SendResult, Plan.Valid, D.Refusal, Registry.Fresh, Decide, AllDecoded, Uds.TornDown, Uds.Put, Uds.Shaken, Uds.Heard;
    if step == Handle { OneMoreHanded(st.net.handed, st.net.incoming[0]); } else { OnlyHandleHands(st, step); }
  }

  lemma OneMoreHanded(items: seq<Uds.Item>, item: Uds.Item)
    ensures AllDecoded(items + [item]) <==> AllDecoded(items) && item.frame != Undecodable
  {
    if AllDecoded(items + [item]) {
      assert (items + [item])[|items|] == item;
      forall i | 0 <= i < |items| ensures items[i].frame != Undecodable { assert (items + [item])[i] == items[i]; }
    }
  }

  /** The loop that feeds the registry lives exactly as long as every frame handed to it could be decoded. */
  lemma {:induction false} LoopLivesIff(run: Run)
    requires Legal(run)
    ensures Exec(run).loopAlive <==> forall i :: 0 <= i < |Exec(run).net.handed| ==> Exec(run).net.handed[i].frame != Undecodable
  {
    hide Next, Enabled;
    if run.Then? {
      LoopLivesIff(run.before);
      HandedStep(Exec(run.before), run.step);
    }
  }

  ghost predicate Extends(run: Run, later: Run) { later == run || (later.Then? && Extends(run, later.before)) }

  ghost predicate Shrunk(was: map<SenderId, Registry.Time>, now: map<SenderId, Registry.Time>) {
    forall id :: id in now ==> id in was && now[id] == was[id]
  }

  lemma ShrinkStep(st: State, step: Step)
    requires Enabled(st, step) && !st.loopAlive
    ensures !Next(st, step).loopAlive && Next(st, step).net.handed == st.net.handed && Shrunk(st.lastSeen, Next(st, step).lastSeen)
  {
    hide Uds.Next, Uds.SendResult, Plan.Valid, D.Refusal, Decide;
    OnlyHandleHands(st, step);
    if step == Try { TryKeepsRest(st); }
  }

  /** Once the loop has ended, nothing is handed over any more, and the registry only shrinks: no sender is
      ever refreshed or comes back. */
  lemma {:induction false} DeadLoopStarves(run: Run, later: Run)
    requires Legal(later) && Extends(run, later) && !Exec(run).loopAlive
    ensures !Exec(later).loopAlive && Exec(later).net.handed == Exec(run).net.handed
    ensures Shrunk(Exec(run).lastSeen, Exec(later).lastSeen)
  {
    hide Next, Enabled;
    if later != run {
      DeadLoopStarves(run, later.before);
      ShrinkStep(Exec(later.before), later.step);
    }
  }

  // The tries of a dispatch

  // The first k tries of one sender.
  function Begun(peers: D.Peers, to: SenderId, payload: AssignSession, k: nat): seq<D.Attempt> {
    seq(k, j requires 0 <= j < k => D.Attempt(to, payload, peers(to, j)))
  }

  // These outcomes explain all that the dispatch has done so far.
  ghost predicate ExplainsSoFar(peers: D.Peers, job: Job) {
    var n := |job.delivered|;
    && job.plan.Valid() && n <= |job.plan.senders| && job.attempt < D.MAX_DISPATCH_ATTEMPTS
    && (forall i :: 0 <= i < n ==> job.delivered[i] == (D.Final(peers, job.plan.senders[i], 0) == Delivered))
    && (if n == |job.plan.senders| then job.tries == D.AllTries(peers, job.plan, n)
        else
          && job.tries == D.AllTries(peers, job.plan, n) + Begun(peers, job.plan.senders[n], job.plan.Payload(n), job.attempt)
          && forall k :: 0 <= k < job.attempt ==> peers(job.plan.senders[n], k) == QueueFull)
  }

  ghost predicate Agree(p: D.Peers, q: D.Peers, id: SenderId) { forall k: nat :: p(id, k) == q(id, k) }

  lemma {:induction false} TriesAgree(p: D.Peers, q: D.Peers, to: SenderId, payload: AssignSession, n: nat)
    requires Agree(p, q, to)
    ensures D.Tries(p, to, payload, n) == D.Tries(q, to, payload, n) && D.Final(p, to, n) == D.Final(q, to, n)
    decreases D.MAX_DISPATCH_ATTEMPTS - n
  {
    assert p(to, n) == q(to, n);
    if n < D.MAX_DISPATCH_ATTEMPTS { TriesAgree(p, q, to, payload, n + 1); }
  }

  lemma {:induction false} AllTriesAgree(p: D.Peers, q: D.Peers, plan: Plan, n: nat)
    requires plan.Valid() && n <= |plan.senders|
    requires forall i :: 0 <= i < n ==> Agree(p, q, plan.senders[i])
    ensures D.AllTries(p, plan, n) == D.AllTries(q, plan, n)
    ensures forall i :: 0 <= i < n ==> D.Final(p, plan.senders[i], 0) == D.Final(q, plan.senders[i], 0)
  {
    hide Plan.Valid, D.Tries, D.Final, Agree;
    if n > 0 {
      AllTriesAgree(p, q, plan, n - 1);
      TriesAgree(p, q, plan.senders[n - 1], plan.Payload(n - 1), 0);
    }
  }

  // The tries of a sender end with the first that is not a full queue, or with the last one allowed.
  lemma TriesAre(peers: D.Peers, to: SenderId, payload: AssignSession, k: nat)
    requires k < D.MAX_DISPATCH_ATTEMPTS && forall j :: 0 <= j < k ==> peers(to, j) == QueueFull
    requires peers(to, k) != QueueFull || k + 1 == D.MAX_DISPATCH_ATTEMPTS
    ensures D.Tries(peers, to, payload, 0) == Begun(peers, to, payload, k + 1)
    ensures D.Final(peers, to, 0) == peers(to, k)
  {
    assert D.Tries(peers, to, payload, D.MAX_DISPATCH_ATTEMPTS) == [];
    if k == 1 { assert peers(to, 0) == QueueFull; }
  }

  function Answering(peers: D.Peers, to: SenderId, k: nat, outcome: SendOutcome): D.Peers {
    (id: SenderId, j: nat) => if id == to && j == k then outcome else peers(id, j)
  }

  // One more try, answered by changing the outcome at its own place only.

  lemma AnsweringKeeps(peers: D.Peers, job: Job, outcome: SendOutcome)
    requires ExplainsSoFar(peers, job) && |job.delivered| < |job.plan.senders| && StrictlyIncreasing(job.plan.senders)
    ensures var n := |job.delivered|;
      var to, payload := job.plan.senders[n], job.plan.Payload(n);
      var answering := Answering(peers, to, job.attempt, outcome);
      && job.tries + [D.Attempt(to, payload, outcome)] == D.AllTries(answering, job.plan, n) + Begun(answering, to, payload, job.attempt + 1)
      && (forall i :: 0 <= i < n ==> job.delivered[i] == (D.Final(answering, job.plan.senders[i], 0) == Delivered))
      && (forall k :: 0 <= k < job.attempt ==> answering(to, k) == QueueFull)
      && answering(to, job.attempt) == outcome
  {
    hide Plan.Valid, D.Tries, D.Final, D.AllTries, Begun;
    var n := |job.delivered|;
    var to, payload := job.plan.senders[n], job.plan.Payload(n);
    var answering := Answering(peers, to, job.attempt, outcome);
    forall i | 0 <= i < n ensures Agree(peers, answering, job.plan.senders[i]) { }
    AllTriesAgree(peers, answering, job.plan, n);
    BegunMore(peers, to, payload, job.attempt, outcome);
  }

  lemma TryExplained(peers: D.Peers, job: Job, outcome: SendOutcome) returns (answering: D.Peers)
    requires ExplainsSoFar(peers, job) && |job.delivered| < |job.plan.senders| && StrictlyIncreasing(job.plan.senders)
    ensures var n := |job.delivered|;
      var tried := job.(tries := job.tries + [D.Attempt(job.plan.senders[n], job.plan.Payload(n), outcome)]);
      if outcome == QueueFull && job.attempt + 1 < D.MAX_DISPATCH_ATTEMPTS then
        ExplainsSoFar(answering, tried.(attempt := job.attempt + 1))
      else
        ExplainsSoFar(answering, tried.(delivered := job.delivered + [outcome == Delivered], attempt := 0))
  {
    hide Plan.Valid, D.Tries, D.Final, D.AllTries, Begun, Answering;
    var n := |job.delivered|;
    var to, payload := job.plan.senders[n], job.plan.Payload(n);
    answering := Answering(peers, to, job.attempt, outcome);
    AnsweringKeeps(peers, job, outcome);
    if !(outcome == QueueFull && job.attempt + 1 < D.MAX_DISPATCH_ATTEMPTS) { TryDecides(answering, job, to, payload, outcome); }
  }

  lemma NoneBegun(peers: D.Peers, to: SenderId, payload: AssignSession)
    ensures Begun(peers, to, payload, 0) == []
  {
  }

  lemma TryDecides(peers: D.Peers, job: Job, to: SenderId, payload: AssignSession, outcome: SendOutcome)
    requires var n := |job.delivered|; job.plan.Valid() && n < |job.plan.senders| && to == job.plan.senders[n] && payload == job.plan.Payload(n)
    requires job.attempt < D.MAX_DISPATCH_ATTEMPTS && (outcome != QueueFull || job.attempt + 1 == D.MAX_DISPATCH_ATTEMPTS)
    requires job.tries + [D.Attempt(to, payload, outcome)] == D.AllTries(peers, job.plan, |job.delivered|) + Begun(peers, to, payload, job.attempt + 1)
    requires forall i :: 0 <= i < |job.delivered| ==> job.delivered[i] == (D.Final(peers, job.plan.senders[i], 0) == Delivered)
    requires (forall k :: 0 <= k < job.attempt ==> peers(to, k) == QueueFull) && peers(to, job.attempt) == outcome
    ensures ExplainsSoFar(peers, job.(
      tries := job.tries + [D.Attempt(to, payload, outcome)], delivered := job.delivered + [outcome == Delivered], attempt := 0))
  {
    hide Plan.Valid, D.Tries, D.Final, D.AllTries, Begun;
    var n := |job.delivered|;
    TriesAre(peers, to, payload, job.attempt);
    D.AllTriesMore(peers, job.plan, n);
    if n + 1 < |job.plan.senders| { NoneBegun(peers, job.plan.senders[n + 1], job.plan.Payload(n + 1)); }
  }

  lemma BegunMore(peers: D.Peers, to: SenderId, payload: AssignSession, k: nat, outcome: SendOutcome)
    ensures var answering := Answering(peers, to, k, outcome);
      && Begun(answering, to, payload, k) == Begun(peers, to, payload, k)
      && Begun(answering, to, payload, k + 1) == Begun(peers, to, payload, k) + [D.Attempt(to, payload, outcome)]
  {
  }

  ghost predicate Explained(job: Job) { exists peers: D.Peers :: ExplainsSoFar(peers, job) }

  ghost predicate JobsExplained(st: State) {
    && (st.job.Some? ==> Explained(st.job.value))
    && forall i :: 0 <= i < |st.finished| ==> Explained(st.finished[i])
  }

  lemma NothingTried(plan: Plan)
    requires plan.Valid()
    ensures Explained(Job(plan, [], 0, []))
  {
    var peers: D.Peers := (id, k) => Delivered;
    assert ExplainsSoFar(peers, Job(plan, [], 0, []));
  }

  lemma ExplainedStep(st: State, step: Step)
    requires Inv(st) && Enabled(st, step) && JobsExplained(st)
    ensures JobsExplained(Next(st, step))
  {
    hide Uds.Next, Uds.Enabled, Uds.Inv, Uds.SendResult, Plan.Valid, Accepted, Succeeded, D.Refusal, Registry.Fresh, Explained, InSession,
      RegistryVerified, SessionsUsed, FinishedSound, RecordedSound, JobAccounted, AllVerified;
    match step
    case Begin(sessionId, source, senders) =>
      var plan := PlanFor(st.setup, sessionId, source, senders);
      if senders != [] && st.setup.fec.BlockSize() > 0 && D.Refusal(plan) == None {
        ValidUnlessRefused(plan);
        NothingTried(plan);
      }
    case Try => TryStep(st);
    case _ =>
  }

  lemma TryStep(st: State)
    requires Inv(st) && st.job.Some? && JobsExplained(st)
    ensures JobsExplained(Next(st, Try))
  {
    hide Uds.Next, Uds.Enabled, Uds.Inv, Uds.SendResult, Plan.Valid, Accepted, Succeeded, InSession, ExplainsSoFar,
      RegistryVerified, SessionsUsed, FinishedSound, RecordedSound, JobAccounted, AllVerified;
    var job := st.job.value;
    var peers: D.Peers :| ExplainsSoFar(peers, job);
    var answering := TryExplained(peers, job, Uds.SendResult(st.net, job.plan.senders[|job.delivered|]));
  }

  lemma {:induction false} JobsAreExplained(run: Run)
    requires Legal(run)
    ensures JobsExplained(Exec(run))
  {
    hide Next, Enabled, Inv, Explained;
    if run.Then? {
      JobsAreExplained(run.before);
      RunsKeepInv(run.before);
      ExplainedStep(Exec(run.before), run.step);
    }
  }

  ghost predicate Explains(peers: D.Peers, job: Job) {
    job.plan.Valid() && job.delivered == D.Flags(peers, job.plan.senders) && job.tries == D.AllTries(peers, job.plan, |job.plan.senders|)
  }

  /** Every dispatch of a run of the whole, interleaved as it may be, is one of the dispatcher's own: for some
      outcome of every possible try it made exactly the tries of the dispatcher's loop and reached exactly
      the senders the loop counts as reached, and the messages of its session in the server's queues are
      those of the accepted tries. */
  lemma {:induction false} DispatchIsTheLoop(run: Run, job: Job)
    requires Legal(run) && job in Exec(run).finished
    ensures exists peers: D.Peers :: Explains(peers, job)
    ensures var log := InSession(Exec(run).net.accepted, job.plan.sessionId);
      Messages(log) == D.Payloads(D.InQueues(job.tries)) && Addressees(log) == D.Receivers(D.InQueues(job.tries))
  {
    hide Exec, Uds.Inv, Plan.Valid, InSession, Accepted, Succeeded, D.InQueues, D.AllTries, D.Final, AllVerified;
    RunsKeepInv(run);
    JobsAreExplained(run);
    var peers: D.Peers :| ExplainsSoFar(peers, job);
    assert job.delivered == D.Flags(peers, job.plan.senders);
    assert Explains(peers, job);
    assert job.delivered[..|job.plan.senders|] == job.delivered;
    D.QueuedAreAccepted(peers, job.plan, |job.plan.senders|);
  }
}
