/** The socket server's histories are those of its run, and nothing it holds is stuck: what it received, sent
    and wrote is read off the steps taken, every queue can be drained, and a torn-down connection is over. */
module ServerHistories {
  import opened Outcomes
  import opened Domain
  import opened Wire
  import opened Uds

  // What the steps of a run say

  // The frames received on a connection, from its first one on if that was a valid hello.
  function Frames(run: Run, c: ConnId): seq<Frame> {
    if run.Start? then []
    else if run.step.Receive? && run.step.c == c && (Frames(run.before, c) != [] || Verifies(run.step.frame, Expected(run))) then
      Frames(run.before, c) + [run.step.frame]
    else Frames(run.before, c)
  }

  // The messages whose write succeeded.
  function Writes(run: Run, c: ConnId): nat {
    if run.Start? then 0 else Writes(run.before, c) + if run.step == WriteOk(c) then 1 else 0
  }

  function HandOvers(run: Run): nat {
    if run.Start? then 0 else HandOvers(run.before) + if run.step == HandOver then 1 else 0
  }

  // The sends that were accepted, with the connection that was the latest of that id.
  function Sends(run: Run): seq<Delivery> {
    if run.Start? then []
    else if run.step.Send? && run.step.to in Exec(run.before).peers
      && |Exec(run.before).conns| > Exec(run.before).peers[run.step.to]
      && |Exec(run.before).conns[Exec(run.before).peers[run.step.to]].queue| < 64
    then Sends(run.before) + [Delivery(Exec(run.before).peers[run.step.to], run.step.to, run.step.payload)]
    else Sends(run.before)
  }

  lemma ReceivedStep(st: State, step: Step, c: ConnId)
    requires Enabled(st, step) && c < |Next(st, step).conns| && Inv(st)
    ensures var was := if c < |st.conns| then st.conns[c].received else [];
      Next(st, step).conns[c].received ==
        if step.Receive? && step.c == c && (was != [] || Verifies(step.frame, st.expected)) then was + [step.frame] else was
  {
    hide SentOn, FramesOf, SendsConserved, FramesConserved, ItemsValid, DeliveriesValid;
    if c < |st.conns| { assert ConnValid(st, c); }
  }

  lemma {:induction false} NoFramesYet(run: Run, c: ConnId)
    requires Legal(run) && c >= |Exec(run).conns|
    ensures Frames(run, c) == []
  {
    hide Inv;
    if run.Then? {
      ReceivedGrowsBack(Exec(run.before), run.step);
      NoFramesYet(run.before, c);
    }
  }

  lemma ReceivedGrowsBack(st: State, step: Step)
    ensures |st.conns| <= |Next(st, step).conns|
  {
  }

  lemma {:induction false} ReceivedAreFrames(run: Run, c: ConnId)
    requires Legal(run) && c < |Exec(run).conns|
    ensures Exec(run).conns[c].received == Frames(run, c)
  {
    hide Next, Enabled, Inv, Verifies;
    if run.Then? {
      RunsKeepInv(run.before);
      SameHash(run);
      ReceivedStep(Exec(run.before), run.step, c);
      if c < |Exec(run.before).conns| { ReceivedAreFrames(run.before, c); } else { NoFramesYet(run.before, c); }
    } else {
      NoConns(run);
    }
  }

  lemma SameHash(run: Run)
    requires run.Then?
    ensures Exec(run.before).expected == Expected(run.before) == Expected(run)
  {
    RunsKeepInv(run.before);
  }

  lemma LogsStep(st: State, step: Step, c: ConnId)
    requires Enabled(st, step) && Inv(st) && c < |Next(st, step).conns|
    ensures var after := Next(st, step);
      && |after.conns[c].written| == (if c < |st.conns| then |st.conns[c].written| else 0) + (if step == WriteOk(c) then 1 else 0)
      && |after.handed| == |st.handed| + (if step == HandOver then 1 else 0)
  {
    hide SentOn, FramesOf, Inv;
  }

  lemma HandedStep(st: State, step: Step)
    requires Enabled(st, step)
    ensures |Next(st, step).handed| == |st.handed| + (if step == HandOver then 1 else 0)
  {
  }

  lemma SendsStep(st: State, step: Step)
    requires Enabled(st, step) && Inv(st)
    ensures Next(st, step).accepted ==
      if step.Send? && step.to in st.peers && |st.conns| > st.peers[step.to] && |st.conns[st.peers[step.to]].queue| < 64
      then st.accepted + [Delivery(st.peers[step.to], step.to, step.payload)] else st.accepted
  {
    hide SentOn, FramesOf, SendsConserved, FramesConserved, ItemsValid, DeliveriesValid, ConnValid;
  }

  lemma {:induction false} NoWritesYet(run: Run, c: ConnId)
    requires Legal(run) && c >= |Exec(run).conns|
    ensures Writes(run, c) == 0
  {
    if run.Then? {
      ReceivedGrowsBack(Exec(run.before), run.step);
      NoWritesYet(run.before, c);
    }
  }

  lemma {:induction false} LogsAreSteps(run: Run)
    requires Legal(run)
    ensures Exec(run).accepted == Sends(run) && |Exec(run).handed| == HandOvers(run)
  {
    hide Next, Enabled, Inv;
    if run.Then? {
      LogsAreSteps(run.before);
      RunsKeepInv(run.before);
      SendsStep(Exec(run.before), run.step);
      HandedStep(Exec(run.before), run.step);
    }
  }

  lemma {:induction false} WrittenAreWrites(run: Run, c: ConnId)
    requires Legal(run) && c < |Exec(run).conns|
    ensures |Exec(run).conns[c].written| == Writes(run, c)
  {
    hide Next, Enabled, Inv;
    if run.Then? {
      RunsKeepInv(run.before);
      LogsStep(Exec(run.before), run.step, c);
      if c < |Exec(run.before).conns| { WrittenAreWrites(run.before, c); } else { NoWritesYet(run.before, c); }
    } else {
      NoConns(run);
    }
  }

  /** The server's histories are what the steps of the run say: each connection's frames from its valid hello
      on, as many writes as succeeded, as many hand-overs as were taken, and exactly the sends that found a
      connection with fewer than 64 messages queued. */
  lemma {:induction false} HistoriesAreTheRun(run: Run, c: ConnId)
    requires Legal(run)
    ensures Exec(run).accepted == Sends(run) && |Exec(run).handed| == HandOvers(run)
    ensures c < |Exec(run).conns| ==> Exec(run).conns[c].received == Frames(run, c) && |Exec(run).conns[c].written| == Writes(run, c)
  {
    hide Exec, Legal;
    LogsAreSteps(run);
    if c < |Exec(run).conns| {
      ReceivedAreFrames(run, c);
      WrittenAreWrites(run, c);
    }
  }

  // Nothing is stuck

  lemma OneMoreStep(run: Run, step: Step) returns (later: Run)
    requires Legal(run) && Enabled(Exec(run), step)
    ensures later == Then(run, step) && Legal(later) && Exec(later) == Next(Exec(run), step)
  {
    hide Next, Enabled;
    later := Then(run, step);
  }

  // The writer's next step, and how much it still has to do.
  function WriterStep(conn: Conn, c: ConnId): Step { if conn.writer == Waiting then Take(c) else WriteOk(c) }

  function Unwritten(conn: Conn): nat { 2 * |conn.queue| + if conn.writer.Writing? then 1 else 0 }

  lemma WriterGoesOn(st: State, c: ConnId)
    requires c < |st.conns| && (st.conns[c].writer.Writing? || (st.conns[c].writer == Waiting && st.conns[c].queue != []))
    ensures Enabled(st, WriterStep(st.conns[c], c))
    ensures var after := Next(st, WriterStep(st.conns[c], c));
      && c < |after.conns| && Unwritten(after.conns[c]) < Unwritten(st.conns[c])
      && (after.conns[c].writer.Writing? || after.conns[c].writer == Waiting) && after.accepted == st.accepted
  {
  }

  /** A writer that can write writes everything: from every run, its own steps alone bring a connection whose
      writer has not stopped to where every message accepted for it is written, in order. */
  lemma {:induction false} AllIsWritten(run: Run, c: ConnId) returns (later: Run)
    requires Legal(run) && c < |Exec(run).conns| && (Exec(run).conns[c].writer == Waiting || Exec(run).conns[c].writer.Writing?)
    ensures Legal(later) && c < |Exec(later).conns| && Exec(later).accepted == Exec(run).accepted
    ensures Exec(later).conns[c].writer == Waiting && Exec(later).conns[c].queue == []
    ensures Exec(later).conns[c].written == SentOn(Exec(run).accepted, c)
    decreases Unwritten(Exec(run).conns[c])
  {
    hide Exec, Next, Enabled, Legal, SentOn, Unwritten;
    var conn := Exec(run).conns[c];
    if conn.writer == Waiting && conn.queue == [] {
      later := run;
      SendSideFifo(run, c);
    } else {
      WriterGoesOn(Exec(run), c);
      var next := OneMoreStep(run, WriterStep(conn, c));
      later := AllIsWritten(next, c);
    }
  }

  lemma HandsOver(st: State)
    requires st.incoming != []
    ensures Enabled(st, HandOver)
    ensures var after := Next(st, HandOver); |after.incoming| == |st.incoming| - 1 && after.conns == st.conns
  {
  }

  lemma {:induction false} QueueIsTaken(run: Run) returns (later: Run)
    requires Legal(run)
    ensures Legal(later) && Exec(later).incoming == [] && Exec(later).conns == Exec(run).conns
    decreases |Exec(run).incoming|
  {
    hide Exec, Next, Enabled, Legal;
    if Exec(run).incoming == [] {
      later := run;
    } else {
      HandsOver(Exec(run));
      var next := OneMoreStep(run, HandOver);
      later := QueueIsTaken(next);
    }
  }

  lemma PutsHeld(st: State, c: ConnId)
    requires c < |st.conns| && st.conns[c].handler.Putting? && st.conns[c].senderId.Some? && |st.incoming| < 256
    ensures Enabled(st, PutResumes(c))
    ensures var after := Next(st, PutResumes(c));
      && |after.conns| == |st.conns| && after.conns[c].handler == Receiving && after.conns[c].received == st.conns[c].received
      && after.conns[c].dropped == st.conns[c].dropped
  {
  }

  /** A frame once received is not stuck: from every run, hand-overs and the handler's own put bring an open
      connection to where every frame received on it has been handed to the dispatch loop, in order. */
  lemma {:induction false} AllIsHandedOver(run: Run, c: ConnId) returns (later: Run)
    requires Legal(run) && c < |Exec(run).conns| && Exec(run).conns[c].handler != Closed
    ensures Legal(later) && c < |Exec(later).conns| && Exec(later).incoming == []
    ensures Exec(later).conns[c].handler == Receiving && Exec(later).conns[c].received == Exec(run).conns[c].received
    ensures FramesOf(Exec(later).handed, c) == Exec(run).conns[c].received
  {
    hide Exec, Next, Enabled, Legal, FramesOf, SentOn, SendsConserved, FramesConserved, ItemsValid, DeliveriesValid;
    later := QueueIsTaken(run);
    RunsKeepInv(later);
    assert ConnValid(Exec(later), c);
    if Exec(later).conns[c].handler.Putting? {
      PutsHeld(Exec(later), c);
      var put := OneMoreStep(later, PutResumes(c));
      later := QueueIsTaken(put);
      RunsKeepInv(later);
      assert ConnValid(Exec(later), c);
    }
    ReceiveSideFifo(later, c);
    assert Exec(later).handed + [] == Exec(later).handed;
  }

  /** A new sender can always join: after any run, connecting and saying hello with the right hash puts that
      connection's queue into the table under the id said, replacing any entry there. */
  lemma {:induction false} AnyoneCanJoin(run: Run, s: SenderId)
    requires Legal(run)
    ensures var c := |Exec(run).conns|; var later := Then(Then(run, Connect), Receive(c, SenderHello(s, Expected(run))));
      && Legal(later) && s in Exec(later).peers && Exec(later).peers[s] == c
  {
    hide Inv;
    RunsKeepInv(run);
  }

  /** A handler waits to put a frame only while the shared queue is full with 256 frames, and any other open
      handler can receive. */
  lemma {:induction false} WaitsOnlyWhenFull(run: Run, c: ConnId, frame: Frame)
    requires Legal(run) && c < |Exec(run).conns| && Exec(run).conns[c].handler == Receiving
    ensures Enabled(Exec(run), Receive(c, frame))
    ensures var after := Exec(Then(run, Receive(c, frame)));
      after.conns[c].handler.Putting? ==> |Exec(run).incoming| == 256 && after.incoming == Exec(run).incoming
  {
    hide SentOn, FramesOf, SendsConserved, FramesConserved, ItemsValid, DeliveriesValid, ConnValid;
    RunsKeepInv(run);
  }

  // The end of a connection

  ghost predicate Extends(run: Run, later: Run) { later == run || (later.Then? && Extends(run, later.before)) }

  // What ends a connection: it hangs up, is cancelled, or says anything but a valid hello first.
  predicate Ends(run: Run, c: ConnId) {
    run.Then? && c < |Exec(run.before).conns|
    && (run.step == HangUp(c) || run.step == Cancel(c)
        || (run.step.Receive? && run.step.c == c && Exec(run.before).conns[c].senderId == None && !Verifies(run.step.frame, Exec(run.before).expected)))
  }

  lemma ClosedStep(st: State, step: Step, c: ConnId)
    requires Enabled(st, step) && Inv(st) && c < |st.conns| && st.conns[c].handler == Closed
      && (forall s :: s in st.peers ==> st.peers[s] != c)
    ensures var after := Next(st, step);
      && c < |after.conns| && after.conns[c] == st.conns[c] && (forall s :: s in after.peers ==> after.peers[s] != c)
  {
    hide SentOn, FramesOf, SendsConserved, FramesConserved, ItemsValid, DeliveriesValid;
    assert ConnValid(st, c);
  }

  lemma EndStep(st: State, step: Step, c: ConnId)
    requires Enabled(st, step) && Inv(st) && c < |st.conns|
    requires step == HangUp(c) || step == Cancel(c)
      || (step.Receive? && step.c == c && st.conns[c].senderId == None && !Verifies(step.frame, st.expected))
    ensures var after := Next(st, step);
      && c < |after.conns| && after.conns[c].handler == Closed && after.conns[c].writer != Waiting && !after.conns[c].writer.Writing?
      && (forall s :: s in after.peers ==> after.peers[s] != c)
  {
    hide SentOn, FramesOf, SendsConserved, FramesConserved, ItemsValid, DeliveriesValid;
    assert ConnValid(st, c);
  }

  /** A connection that has ended is over: whatever happens later, it is in the table under no id, and nothing
      is received, queued or written on it any more. */
  lemma {:induction false} EndedIsOver(run: Run, later: Run, c: ConnId)
    requires Legal(later) && Legal(run) && Extends(run, later) && Ends(run, c)
    ensures c < |Exec(later).conns| && c < |Exec(run).conns| && Exec(later).conns[c] == Exec(run).conns[c]
    ensures Exec(later).conns[c].handler == Closed && forall s :: s in Exec(later).peers ==> Exec(later).peers[s] != c
  {
    hide Next, Enabled, Inv;
    if later == run {
      RunsKeepInv(run.before);
      EndStep(Exec(run.before), run.step, c);
    } else {
      EndedIsOver(run, later.before, c);
      RunsKeepInv(later.before);
      ClosedStep(Exec(later.before), later.step, c);
    }
  }
}
