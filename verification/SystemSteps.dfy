/** What the steps of the whole system do, stated over runs: what a handled frame changes, when a dispatch is
    opened, what a try does to the registry, that every dispatch can finish, and which sessions are recorded. */
module SystemSteps {
  import opened Outcomes
  import opened Domain
  import opened Sorting
  import opened Wire
  import opened Sessions
  import opened WholeSystem
  import opened SystemHistories
  import D = Dispatcher
  import Planner
  import Planning
  import Registry
  import Uds

  /** A hello or a heartbeat marks its sender as heard now and no other, a completion forgets its session and no
      other, and every other frame changes neither table. */
  lemma {:induction false} HandledFrame(run: Run)
    requires Legal(Then(run, Handle))
    ensures Exec(run).net.incoming != []
    ensures var st, after := Exec(run), Exec(Then(run, Handle)); var item := st.net.incoming[0];
      && after.net.incoming == st.net.incoming[1..] && after.net.handed == st.net.handed + [item]
      && (item.frame.SenderHello? || item.frame.Heartbeat? ==> item.senderId in after.lastSeen && after.lastSeen[item.senderId] == st.now)
      && (forall id :: id != item.senderId || !(item.frame.SenderHello? || item.frame.Heartbeat?) ==>
           (id in after.lastSeen <==> id in st.lastSeen) && (id in st.lastSeen ==> after.lastSeen[id] == st.lastSeen[id]))
      && (forall s :: s in after.recorded <==> s in st.recorded && item.frame != SessionComplete(s))
      && (forall s :: s in after.recorded ==> after.recorded[s] == st.recorded[s])
  {
    hide Exec, Uds.Next;
    ExecThen(run, Handle);
    LegalThen(run, Handle);
    HandOverTakes(Exec(run).net);
  }

  lemma LegalThen(run: Run, step: Step)
    requires Legal(Then(run, step))
    ensures Legal(run) && Enabled(Exec(run), step)
  {
  }

  lemma HandOverTakes(net: Uds.State)
    requires net.incoming != []
    ensures var after := Uds.Next(net, Uds.HandOver);
      after.incoming == net.incoming[1..] && after.handed == net.handed + [net.incoming[0]]
  {
  }

  /** A dispatch lists exactly the senders alive at that moment by the registry's calls. It is opened exactly
      when there is one and the planner accepts the file, and then for these senders with the settings of the
      system and nothing decided; otherwise nothing is sent and nothing recorded. */
  lemma {:induction false} BeginOpensIff(run: Run, sessionId: SessionId, source: SourceFile, senders: seq<SenderId>)
    requires Legal(Then(run, Begin(sessionId, source, senders))) && Exec(run).setup.fec.Validated()
    ensures var st, after := Exec(run), Exec(Then(run, Begin(sessionId, source, senders))); var setup := st.setup;
      && setup.fec.BlockSize() > 0
      && StrictlyIncreasing(senders)
      && (forall id :: id in senders <==> Registry.Alive(st.calls, id, st.now, setup.timeout))
      && (forall id :: id in after.lastSeen <==> id in senders)
      && (after.job.Some? <==> senders != [] && Planner.SourceError(source, setup.fec, setup.watchRoot) == None)
      && (after.job.Some? ==>
           after.job.value.delivered == [] && after.job.value.tries == [] &&
           after.job.value.plan == Plan(sessionId, source, setup.fec, setup.watchRoot, setup.targetHost, setup.basePort, senders))
      && after.net == st.net && after.recorded == st.recorded && after.finished == st.finished
  {
    hide Uds.Next, Registry.Lazy, Registry.Monotone, Registry.Alive, D.Refusal, Planner.SourceError;
    var st := Exec(run);
    Planning.BlockSizeBounds(st.setup.fec);
    D.RefusalIff(PlanFor(st.setup, sessionId, source, senders));
    forall id ensures id in LiveIds(st) <==> Registry.Alive(st.calls, id, st.now, st.setup.timeout) { RegistryIsLazy(run, id); }
  }

  /** A try sends the next shard's own message to the next sender of the list. One that finds no connection
      drops that sender from the registry and no other; a try with any other outcome drops none. */
  lemma {:induction false} TryDrops(run: Run)
    requires Legal(Then(run, Try))
    ensures var job := Exec(run).job.value;
      Exec(run).job.Some? && job.plan.Valid() && |job.delivered| < |job.plan.senders|
    ensures var st, after := Exec(run), Exec(Then(run, Try)); var job := st.job.value; var n := |job.delivered|;
      var to := job.plan.senders[n];
      && after.net == Uds.Next(st.net, Uds.Send(to, job.plan.Payload(n)))
      && after.lastSeen == (if to !in st.net.peers then st.lastSeen - {to} else st.lastSeen)
      && after.calls == st.calls + (if to !in st.net.peers then [Registry.Remove(to, st.now)] else [])
  {
    hide Uds.Next, Plan.Valid, Decide, Uds.Inv, InSession, Accepted, Succeeded, RegistryVerified, SessionsUsed, FinishedSound, RecordedSound,
      JobAccounted, AllVerified;
    RunsKeepInv(run);
    var st := Exec(run);
    var job := st.job.value;
    var to, payload := job.plan.senders[|job.delivered|], job.plan.Payload(|job.delivered|);
    var sent := Tried(st, D.Attempt(to, payload, Uds.SendResult(st.net, to))).(net := Uds.Next(st.net, Uds.Send(to, payload)));
    DecideKeepsRest(sent, true);
    DecideKeepsRest(sent, false);
    DecideKeepsRest(Unheard(sent, to), false);
  }

  /** A dispatch can begin whenever none is under way, with every session id not drawn before. */
  lemma {:induction false} DispatchCanBegin(run: Run, sessionId: SessionId, source: SourceFile) returns (senders: seq<SenderId>)
    requires Legal(run) && Exec(run).job == None && sessionId !in Exec(run).used
    ensures Legal(Then(run, Begin(sessionId, source, senders)))
  {
    hide Exec, Next, Registry.Fresh;
    senders := SortedExists(LiveIds(Exec(run)));
  }

  // The loop goes on

  predicate HandlesOnly(run: Run, later: Run) { later == run || (later.Then? && later.step == Handle && HandlesOnly(run, later.before)) }

  lemma {:induction false} HandlesOnlyMore(a: Run, b: Run, c: Run)
    requires HandlesOnly(a, b) && HandlesOnly(b, c)
    ensures HandlesOnly(a, c)
  {
    if c != b { HandlesOnlyMore(a, b, c.before); }
  }

  lemma HandleProgress(st: State)
    requires st.loopAlive && st.net.incoming != []
    ensures Enabled(st, Handle)
    ensures var after := Next(st, Handle);
      && |after.net.incoming| == |st.net.incoming| - 1
      && (after.loopAlive <==> st.net.incoming[0].frame != Undecodable)
      && after.net.handed + after.net.incoming == st.net.handed + st.net.incoming
  {
    hide Uds.Next;
    HandOverTakes(st.net);
  }

  /** The incoming loop handles what is queued: from every run in which it is alive, its own turns bring it to
      an empty queue, or to its end at a frame that cannot be decoded, in the order of the queue. */
  lemma {:induction false} LoopCanDrain(run: Run) returns (later: Run)
    requires Legal(run) && Exec(run).loopAlive
    ensures Legal(later) && HandlesOnly(run, later)
    ensures Exec(later).net.incoming == [] || !Exec(later).loopAlive
    ensures Exec(later).net.handed + Exec(later).net.incoming == Exec(run).net.handed + Exec(run).net.incoming
    decreases |Exec(run).net.incoming|
  {
    hide Exec, Next;
    later := run;
    assert HandlesOnly(run, run);
    if Exec(run).net.incoming != [] {
      HandleProgress(Exec(run));
      var next := Then(run, Handle);
      ExecThen(run, Handle);
      assert HandlesOnly(run, next);
      later := next;
      if Exec(next).loopAlive {
        later := LoopCanDrain(next);
        HandlesOnlyMore(run, next, later);
      }
    }
  }

  // Dispatches finish

  predicate TriesOnly(run: Run, later: Run) { later == run || (later.Then? && later.step == Try && TriesOnly(run, later.before)) }

  lemma {:induction false} TriesOnlyMore(a: Run, b: Run, c: Run)
    requires TriesOnly(a, b) && TriesOnly(b, c)
    ensures TriesOnly(a, c)
  {
    if c != b { TriesOnlyMore(a, b, c.before); }
  }

  function Left(st: State): nat {
    if st.job.Some? && |st.job.value.delivered| < |st.job.value.plan.senders| && st.job.value.attempt < 2 then
      2 * (|st.job.value.plan.senders| - |st.job.value.delivered|) - st.job.value.attempt
    else 0
  }

  lemma DecideProgress(st: State, delivered: bool)
    requires st.job.Some? && |st.job.value.delivered| < |st.job.value.plan.senders|
    ensures var after := Decide(st, delivered); var job := st.job.value.(delivered := st.job.value.delivered + [delivered], attempt := 0);
      if |job.delivered| < |job.plan.senders| then after.job == Some(job) && after.finished == st.finished
      else after.job == None && after.finished == st.finished + [job]
  {
    hide Succeeded;
  }

  lemma LeftIs(st: State)
    requires st.job.Some?
    ensures var job := st.job.value; |job.delivered| < |job.plan.senders| && job.attempt < 2 ==>
      Left(st) == 2 * (|job.plan.senders| - |job.delivered|) - job.attempt
  {
  }

  lemma TryProgress(st: State)
    requires st.job.Some? && JobCurrent(st)
    ensures var after := Next(st, Try); var job := st.job.value;
      if after.job.Some? then
        Left(after) < Left(st) && after.job.value.plan == job.plan && after.finished == st.finished
      else
        |after.finished| == |st.finished| + 1 && after.finished[..|st.finished|] == st.finished
        && after.finished[|st.finished|].plan == job.plan
        && |after.finished[|st.finished|].delivered| == |job.plan.senders|
  {
    hide Uds.Next, Uds.SendResult, Plan.Valid, Decide, JobAccounted, AllVerified, Left;
    LeftIs(st);
    if Next(st, Try).job.Some? { LeftIs(Next(st, Try)); }
    var job := st.job.value;
    var n := |job.delivered|;
    var to, payload := job.plan.senders[n], job.plan.Payload(n);
    var sent := Tried(st, D.Attempt(to, payload, Uds.SendResult(st.net, to))).(net := Uds.Next(st.net, Uds.Send(to, payload)));
    DecideProgress(sent, true);
    DecideProgress(sent, false);
    DecideProgress(Unheard(sent, to), false);
  }

  /** Every dispatch finishes by itself: its own tries, at most two for each sender, bring it to its end. */
  lemma {:induction false} DispatchCanFinish(run: Run) returns (later: Run)
    requires Legal(run) && Exec(run).job.Some?
    ensures Legal(later) && TriesOnly(run, later) && Exec(later).job == None
    ensures var was, now := Exec(run), Exec(later);
      && |now.finished| == |was.finished| + 1 && now.finished[|was.finished|].plan == was.job.value.plan
      && |now.finished[|was.finished|].delivered| == |was.job.value.plan.senders|
    decreases Left(Exec(run))
  {
    hide Exec, Next, Left, Inv, JobCurrent;
    RunsKeepInv(run);
    CurrentInInv(Exec(run));
    TryProgress(Exec(run));
    var next := Then(run, Try);
    assert Legal(next);
    ExecThen(run, Try);
    assert TriesOnly(run, next) by { assert TriesOnly(run, run); }
    if Exec(next).job == None {
      later := next;
    } else {
      later := DispatchCanFinish(next);
      TriesOnlyMore(run, next, later);
    }
  }

  lemma CurrentInInv(st: State)
    requires Inv(st)
    ensures JobCurrent(st)
  {
    hide JobCurrent, Uds.Inv, RegistryVerified, SessionsUsed, FinishedSound, RecordedSound;
  }

  lemma ExecThen(run: Run, step: Step)
    ensures Exec(Then(run, step)) == Next(Exec(run), step)
  {
    hide Next;
  }

  // Recorded sessions

  ghost predicate CompletionHandled(st: State, s: SessionId) {
    exists i :: 0 <= i < |st.net.handed| && st.net.handed[i].frame == SessionComplete(s)
  }

  ghost predicate Kept(st: State, job: Job)
    requires |job.delivered| <= |job.plan.senders|
  {
    Succeeded(job.plan, job.delivered) != [] ==>
      CompletionHandled(st, job.plan.sessionId)
      || (job.plan.sessionId in st.recorded && st.recorded[job.plan.sessionId] == Succeeded(job.plan, job.delivered))
  }

  ghost predicate AllKept(st: State) {
    forall i :: 0 <= i < |st.finished| ==> |st.finished[i].delivered| <= |st.finished[i].plan.senders| && Kept(st, st.finished[i])
  }

  lemma HandleKept(st: State)
    requires AllKept(st) && Enabled(st, Handle)
    ensures AllKept(Next(st, Handle))
  {
    hide Succeeded, Registry.Fresh;
    var item := st.net.incoming[0];
    var after := Next(st, Handle);
    assert after.net.handed == st.net.handed + [item];
    forall i | 0 <= i < |st.finished| ensures Kept(after, after.finished[i]) {
      var s := st.finished[i].plan.sessionId;
      assert Kept(st, st.finished[i]);
      if CompletionHandled(st, s) {
        var j :| 0 <= j < |st.net.handed| && st.net.handed[j].frame == SessionComplete(s);
        assert after.net.handed[j].frame == SessionComplete(s);
      } else if item.frame == SessionComplete(s) {
        assert after.net.handed[|st.net.handed|].frame == SessionComplete(s);
      }
    }
  }

  // What deciding does to the records: a finished session that reached a sender is recorded under them.
  lemma DecideRecords(st: State, delivered: bool)
    requires st.job.Some? && |st.job.value.delivered| < |st.job.value.plan.senders| && AllKept(st)
    requires forall i :: 0 <= i < |st.finished| ==> st.finished[i].plan.sessionId != st.job.value.plan.sessionId
    ensures AllKept(Decide(st, delivered))
  {
    hide Succeeded, CompletionHandled;
    var after := Decide(st, delivered);
    HandledSame(st, after);
    forall i | 0 <= i < |after.finished| ensures |after.finished[i].delivered| <= |after.finished[i].plan.senders| && Kept(after, after.finished[i]) {
      if i < |st.finished| { assert Kept(st, st.finished[i]); }
    }
  }

  lemma HandledSame(st: State, after: State)
    requires after.net.handed == st.net.handed
    ensures forall s :: CompletionHandled(st, s) <==> CompletionHandled(after, s)
  {
  }

  lemma SameKept(st: State, after: State)
    requires AllKept(st) && after.net.handed == st.net.handed && after.recorded == st.recorded && after.finished == st.finished
    ensures AllKept(after)
  {
    hide Succeeded, CompletionHandled;
    HandledSame(st, after);
    forall i | 0 <= i < |st.finished| ensures Kept(after, after.finished[i]) { assert Kept(st, st.finished[i]); }
  }

  lemma TryKept(st: State)
    requires st.job.Some? && JobCurrent(st) && AllKept(st)
    ensures AllKept(Next(st, Try))
  {
    hide Uds.Next, Uds.SendResult, Plan.Valid, Succeeded, JobAccounted, AllVerified, Decide, AllKept;
    var job := st.job.value;
    var n := |job.delivered|;
    var to, payload := job.plan.senders[n], job.plan.Payload(n);
    var sent := Tried(st, D.Attempt(to, payload, Uds.SendResult(st.net, to))).(net := Uds.Next(st.net, Uds.Send(to, payload)));
    HandedByHandOver(st.net, Uds.Send(to, payload));
    SameKept(st, sent);
    SameKept(st, Unheard(sent, to));
    DecideRecords(sent, true);
    DecideRecords(sent, false);
    DecideRecords(Unheard(sent, to), false);
    SameKept(st, sent.(job := Some(sent.job.value.(attempt := job.attempt + 1))));
  }

  lemma KeptStep(st: State, step: Step)
    requires Enabled(st, step) && JobCurrent(st) && AllKept(st)
    ensures AllKept(Next(st, step))
  {
    hide AllKept, JobCurrent, Uds.Next, Plan.Valid, D.Refusal, Registry.Fresh, Decide;
    match step
    case Handle => HandleKept(st);
    case Try => TryKept(st);
    case Net(netStep) => HandedByHandOver(st.net, netStep); SameKept(st, Next(st, step));
    case _ => SameKept(st, Next(st, step));
  }

  lemma {:induction false} RunsKeepRecords(run: Run)
    requires Legal(run)
    ensures AllKept(Exec(run))
  {
    hide Next, Enabled, Inv, JobCurrent, AllKept;
    if run.Then? {
      RunsKeepRecords(run.before);
      RunsKeepInv(run.before);
      CurrentInInv(Exec(run.before));
      KeptStep(Exec(run.before), run.step);
    } else {
      NothingKept(run);
    }
  }

  lemma NothingKept(run: Run)
    requires run.Start?
    ensures AllKept(Exec(run))
  {
  }

  /** A finished session that reached a sender stays recorded, under exactly the senders it reached, until a
      completion of it has been handled, whoever sent that; one that reached none is never recorded. */
  lemma {:induction false} RecordedUntilCompleted(run: Run, job: Job)
    requires Legal(run) && job in Exec(run).finished
    ensures |job.delivered| == |job.plan.senders|
    ensures var st := Exec(run); var s := job.plan.sessionId;
      && ((exists i :: 0 <= i < |job.delivered| && job.delivered[i]) ==>
           CompletionHandled(st, s) || (s in st.recorded && forall id :: id in st.recorded[s] <==> Reached(job, id)))
      && ((forall i :: 0 <= i < |job.delivered| ==> !job.delivered[i]) ==> s !in st.recorded)
  {
    hide Exec, Uds.Inv, RegistryVerified, SessionsUsed, JobCurrent, JobAccounted, JobSound, Succeeded, CompletionHandled;
    RunsKeepInv(run);
    RunsKeepRecords(run);
    var st := Exec(run);
    var k :| 0 <= k < |st.finished| && st.finished[k] == job;
    assert Kept(st, job);
    forall id ensures id in Succeeded(job.plan, job.delivered) <==> Reached(job, id) { D.SucceededAreSome(job.plan, job.delivered, id); }
    if i :| 0 <= i < |job.delivered| && job.delivered[i] { assert Reached(job, job.plan.senders[i]); }
    if (forall i :: 0 <= i < |job.delivered| ==> !job.delivered[i]) && job.plan.sessionId in st.recorded {
      var m :| 0 <= m < |st.finished| && RecordOf(st.finished[m], job.plan.sessionId, st.recorded[job.plan.sessionId]);
      assert m == k;
      var reached := Succeeded(job.plan, job.delivered);
      assert reached[0] in reached;
      assert Reached(job, reached[0]);
    }
  }

  ghost predicate Reached(job: Job, id: SenderId)
    requires |job.delivered| <= |job.plan.senders|
  {
    exists i :: 0 <= i < |job.delivered| && job.delivered[i] && job.plan.senders[i] == id
  }
}
