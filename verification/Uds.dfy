/** The socket server as a step system. Each connection has a handler task, which receives, and after its
    handshake a writer task, which drains the connection's send queue. All of them share the table of
    peers. One step is what one task does between two awaits, or one act of the outside world. */
module Uds {
  import opened Outcomes
  import opened Domain
  import opened Wire

  const SEND_QUEUE_MAXSIZE: nat := 64
  const INCOMING_QUEUE_MAXSIZE: nat := 256

  // A connection owns one send queue for life, so its number also names that queue.
  type ConnId = nat
  type Payload = AssignSession

  datatype Handler = Receiving | Putting(frame: Frame) | Closed
  datatype Writer = NoWriter | Waiting | Writing(payload: Payload) | Stopped(unsent: seq<Payload>)

  // `received` counts from the accepted hello on; `dropped` is what a cancelled handler still held.
  datatype Conn = Conn(
    senderId: Option<SenderId>, handler: Handler, writer: Writer, queue: seq<Payload>, written: seq<Payload>,
    received: seq<Frame>, dropped: seq<Frame>)

  datatype Item = Item(conn: ConnId, senderId: SenderId, frame: Frame)
  datatype Delivery = Delivery(conn: ConnId, to: SenderId, payload: Payload)

  // `handed` and `accepted` are the histories of the shared incoming queue and of `send`.
  datatype State = State(
    expected: ProtoHash, conns: seq<Conn>, peers: map<SenderId, ConnId>, incoming: seq<Item>, handed: seq<Item>,
    accepted: seq<Delivery>)

  datatype Step =
    | Connect
    | Receive(c: ConnId, frame: Frame)
    | HangUp(c: ConnId)          // end of stream, or an error while receiving
    | PutResumes(c: ConnId)      // the shared queue has room for a handler that was waiting
    | Cancel(c: ConnId)          // the server shuts the handler down
    | Take(c: ConnId)
    | WriteOk(c: ConnId)
    | WriteFail(c: ConnId)
    | Send(to: SenderId, payload: Payload)
    | HandOver                   // the dispatch loop gets the next frame

  const NEW_CONN := Conn(None, Receiving, NoWriter, [], [], [], [])

  function Initial(expected: ProtoHash): State { State(expected, [], map[], [], [], []) }

  function InHand(writer: Writer): seq<Payload> {
    match writer
    case Writing(payload) => [payload]
    case Stopped(unsent) => unsent
    case _ => []
  }

  function Blocked(handler: Handler): seq<Frame> { if handler.Putting? then [handler.frame] else [] }

  predicate Enabled(st: State, step: Step) {
    match step
    case Connect => true
    case Receive(c, _) => c < |st.conns| && st.conns[c].handler == Receiving
    case HangUp(c) => c < |st.conns| && st.conns[c].handler == Receiving
    case PutResumes(c) => c < |st.conns| && st.conns[c].handler.Putting? && |st.incoming| < INCOMING_QUEUE_MAXSIZE
    case Cancel(c) => c < |st.conns| && st.conns[c].handler != Closed
    case Take(c) => c < |st.conns| && st.conns[c].writer == Waiting && st.conns[c].queue != []
    case WriteOk(c) => c < |st.conns| && st.conns[c].writer.Writing?
    case WriteFail(c) => c < |st.conns| && st.conns[c].writer.Writing?
    case Send(_, _) => true
    case HandOver => st.incoming != []
  }

  predicate Verifies(frame: Frame, expected: ProtoHash) { frame.SenderHello? && frame.protoHash == expected }

  // The entry goes only if it still holds this connection's queue.
  function Unregistered(st: State, c: ConnId): map<SenderId, ConnId>
    requires c < |st.conns|
  {
    match st.conns[c].senderId
    case Some(s) => if s in st.peers && st.peers[s] == c then st.peers - {s} else st.peers
    case None => st.peers
  }

  function TornDown(st: State, c: ConnId): State
    requires c < |st.conns|
  {
    var conn := st.conns[c];
    var writer := if conn.writer == NoWriter then NoWriter else Stopped(InHand(conn.writer));
    st.(peers := Unregistered(st, c),
        conns := st.conns[c := conn.(handler := Closed, writer := writer, dropped := Blocked(conn.handler))])
  }

  // Puts the frame if there is room, and otherwise waits holding it.
  function Put(st: State, c: ConnId, frame: Frame): State
    requires c < |st.conns| && st.conns[c].senderId.Some?
  {
    if |st.incoming| < INCOMING_QUEUE_MAXSIZE then
      st.(incoming := st.incoming + [Item(c, st.conns[c].senderId.value, frame)],
          conns := st.conns[c := st.conns[c].(handler := Receiving)])
    else
      st.(conns := st.conns[c := st.conns[c].(handler := Putting(frame))])
  }

  function Shaken(st: State, c: ConnId, hello: Frame): State
    requires c < |st.conns| && hello.SenderHello?
  {
    st.(peers := st.peers[hello.senderId := c],
        conns := st.conns[c := st.conns[c].(senderId := Some(hello.senderId), writer := Waiting)])
  }

  function Heard(st: State, c: ConnId, frame: Frame): State
    requires c < |st.conns|
  {
    st.(conns := st.conns[c := st.conns[c].(received := st.conns[c].received + [frame])])
  }

  function SendResult(st: State, to: SenderId): SendOutcome {
    if to !in st.peers then UnknownSender
    else if st.peers[to] < |st.conns| && |st.conns[st.peers[to]].queue| >= SEND_QUEUE_MAXSIZE then QueueFull
    else Delivered
  }

  function Next(st: State, step: Step): State {
    if !Enabled(st, step) then st else
      match step
      case Connect => st.(conns := st.conns + [NEW_CONN])
      case Receive(c, frame) =>
        if st.conns[c].senderId.Some? then Put(Heard(st, c, frame), c, frame)
        else if Verifies(frame, st.expected) then Put(Shaken(Heard(st, c, frame), c, frame), c, frame)
        else TornDown(st, c)
      case HangUp(c) => TornDown(st, c)
      case PutResumes(c) => if st.conns[c].senderId.Some? then Put(st, c, st.conns[c].handler.frame) else st
      case Cancel(c) => TornDown(st, c)
      case Take(c) =>
        var conn := st.conns[c];
        st.(conns := st.conns[c := conn.(writer := Writing(conn.queue[0]), queue := conn.queue[1..])])
      case WriteOk(c) =>
        var conn := st.conns[c];
        st.(conns := st.conns[c := conn.(writer := Waiting, written := conn.written + [conn.writer.payload])])
      case WriteFail(c) =>
        var conn := st.conns[c];
        st.(peers := Unregistered(st, c), conns := st.conns[c := conn.(writer := Stopped([conn.writer.payload]))])
      case Send(to, payload) =>
        if SendResult(st, to) != Delivered || st.peers[to] >= |st.conns| then st else
          var c := st.peers[to];
          st.(conns := st.conns[c := st.conns[c].(queue := st.conns[c].queue + [payload])],
              accepted := st.accepted + [Delivery(c, to, payload)])
      case HandOver => st.(incoming := st.incoming[1..], handed := st.handed + [st.incoming[0]])
  }

  // Histories by connection

  function SentOn(log: seq<Delivery>, c: ConnId): seq<Payload> {
    if log == [] then [] else
      var n := |log| - 1;
      SentOn(log[..n], c) + if log[n].conn == c then [log[n].payload] else []
  }

  function FramesOf(items: seq<Item>, c: ConnId): seq<Frame> {
    if items == [] then [] else
      var n := |items| - 1;
      FramesOf(items[..n], c) + if items[n].conn == c then [items[n].frame] else []
  }

  lemma SentOnMore(log: seq<Delivery>, d: Delivery, c: ConnId)
    ensures SentOn(log + [d], c) == SentOn(log, c) + if d.conn == c then [d.payload] else []
  {
    assert (log + [d])[..|log|] == log;
  }

  lemma FramesOfMore(items: seq<Item>, item: Item, c: ConnId)
    ensures FramesOf(items + [item], c) == FramesOf(items, c) + if item.conn == c then [item.frame] else []
  {
    assert (items + [item])[..|items|] == items;
  }

  // What every step keeps

  ghost predicate ConnValid(st: State, c: ConnId)
    requires c < |st.conns|
  {
    var conn := st.conns[c];
    && (conn.senderId == None ==> conn.received == [] && conn.writer == NoWriter && conn.queue == [] && !conn.handler.Putting?)
    && (conn.senderId.Some? ==> conn.received != [] && conn.received[0] == SenderHello(conn.senderId.value, st.expected))
    && (conn.senderId.Some? ==> conn.writer != NoWriter)
    && (conn.handler == Closed ==> conn.writer.NoWriter? || conn.writer.Stopped?)
    && (conn.writer.Stopped? ==> |conn.writer.unsent| <= 1)
    && (conn.handler != Closed ==> conn.dropped == [])
    && |conn.dropped| <= 1
    && |conn.queue| <= SEND_QUEUE_MAXSIZE
  }

  // Accepted payloads are, in order, those written, at most one in the writer's hands, and the queue.
  ghost predicate SendsConserved(st: State, c: ConnId)
    requires c < |st.conns|
  {
    var conn := st.conns[c];
    SentOn(st.accepted, c) == conn.written + InHand(conn.writer) + conn.queue
  }

  // Received frames are, in order, those handed over, those queued, and at most one the handler holds or held.
  ghost predicate FramesConserved(st: State, c: ConnId)
    requires c < |st.conns|
  {
    var conn := st.conns[c];
    conn.received == FramesOf(st.handed + st.incoming, c) + Blocked(conn.handler) + conn.dropped
  }

  ghost predicate Live(conn: Conn) { conn.handler != Closed && (conn.writer.Waiting? || conn.writer.Writing?) }

  ghost predicate ItemsValid(st: State, items: seq<Item>) {
    forall i :: 0 <= i < |items| ==> items[i].conn < |st.conns| && st.conns[items[i].conn].senderId == Some(items[i].senderId)
  }

  ghost predicate DeliveriesValid(st: State) {
    forall i :: 0 <= i < |st.accepted| ==>
      st.accepted[i].conn < |st.conns| && st.conns[st.accepted[i].conn].senderId == Some(st.accepted[i].to)
  }

  ghost predicate Inv(st: State) {
    && (forall s :: s in st.peers ==>
         st.peers[s] < |st.conns| && st.conns[st.peers[s]].senderId == Some(s) && Live(st.conns[st.peers[s]]))
    && (forall c: ConnId :: c < |st.conns| ==> ConnValid(st, c))
    && (forall c: ConnId :: c < |st.conns| ==> SendsConserved(st, c))
    && (forall c: ConnId :: c < |st.conns| ==> FramesConserved(st, c))
    && ItemsValid(st, st.handed + st.incoming)
    && DeliveriesValid(st)
    && |st.incoming| <= INCOMING_QUEUE_MAXSIZE
  }

  lemma {:induction false} NoneSent(log: seq<Delivery>, c: ConnId)
    requires forall i :: 0 <= i < |log| ==> log[i].conn != c
    ensures SentOn(log, c) == []
  {
    if log != [] { NoneSent(log[..|log| - 1], c); }
  }

  lemma {:induction false} NoFrames(items: seq<Item>, c: ConnId)
    requires forall i :: 0 <= i < |items| ==> items[i].conn != c
    ensures FramesOf(items, c) == []
  {
    if items != [] { NoFrames(items[..|items| - 1], c); }
  }

  lemma ConnectKeeps(st: State)
    requires Inv(st)
    ensures Inv(Next(st, Connect))
  {
    hide SentOn, FramesOf;
    var c := |st.conns|;
    NoneSent(st.accepted, c);
    NoFrames(st.handed + st.incoming, c);
    var after := Next(st, Connect);
    forall d: ConnId | d < |after.conns| ensures ConnValid(after, d) && SendsConserved(after, d) && FramesConserved(after, d) {
      if d < c { assert ConnValid(st, d) && SendsConserved(st, d) && FramesConserved(st, d); }
    }
  }

  lemma TornDownKeeps(st: State, c: ConnId)
    requires Inv(st) && c < |st.conns| && st.conns[c].handler != Closed
    ensures Inv(TornDown(st, c))
  {
    hide SentOn, FramesOf;
    var after := TornDown(st, c);
    forall d: ConnId | d < |after.conns| ensures ConnValid(after, d) && SendsConserved(after, d) && FramesConserved(after, d) {
      assert ConnValid(st, d) && SendsConserved(st, d) && FramesConserved(st, d);
    }
  }

  // A put moves the frame from the handler to the shared queue, or leaves it with the handler.
  lemma PutKeeps(st: State, c: ConnId, frame: Frame)
    requires c < |st.conns| && st.conns[c].senderId.Some? && st.conns[c].handler != Closed
    requires Inv(st.(conns := st.conns[c := st.conns[c].(handler := Putting(frame))]))
    requires |st.incoming| <= INCOMING_QUEUE_MAXSIZE
    ensures Inv(Put(st, c, frame))
  {
    hide SentOn, FramesOf;
    var held := st.(conns := st.conns[c := st.conns[c].(handler := Putting(frame))]);
    if |st.incoming| < INCOMING_QUEUE_MAXSIZE {
      var after := Put(st, c, frame);
      var item := Item(c, st.conns[c].senderId.value, frame);
      assert st.handed + (st.incoming + [item]) == (st.handed + st.incoming) + [item];
      forall d: ConnId | d < |after.conns| ensures ConnValid(after, d) && SendsConserved(after, d) && FramesConserved(after, d) {
        FramesOfMore(st.handed + st.incoming, item, d);
        assert ConnValid(held, d) && SendsConserved(held, d) && FramesConserved(held, d);
      }
    }
  }

  lemma HeardKeeps(st: State, c: ConnId, frame: Frame)
    requires Inv(st) && c < |st.conns| && st.conns[c].handler == Receiving && st.conns[c].senderId.Some?
    ensures var heard := Heard(st, c, frame); Inv(heard.(conns := heard.conns[c := heard.conns[c].(handler := Putting(frame))]))
  {
    hide SentOn, FramesOf;
    var heard := Heard(st, c, frame);
    var held := heard.(conns := heard.conns[c := heard.conns[c].(handler := Putting(frame))]);
    forall d: ConnId | d < |held.conns| ensures ConnValid(held, d) && SendsConserved(held, d) && FramesConserved(held, d) {
      assert ConnValid(st, d) && SendsConserved(st, d) && FramesConserved(st, d);
    }
  }

  lemma ShakenKeeps(st: State, c: ConnId, hello: Frame)
    requires Inv(st) && c < |st.conns| && st.conns[c].handler == Receiving && st.conns[c].senderId == None
    requires Verifies(hello, st.expected)
    ensures var shaken := Shaken(Heard(st, c, hello), c, hello);
      Inv(shaken.(conns := shaken.conns[c := shaken.conns[c].(handler := Putting(hello))]))
  {
    hide SentOn, FramesOf;
    var shaken := Shaken(Heard(st, c, hello), c, hello);
    var held := shaken.(conns := shaken.conns[c := shaken.conns[c].(handler := Putting(hello))]);
    forall d: ConnId | d < |held.conns| ensures ConnValid(held, d) && SendsConserved(held, d) && FramesConserved(held, d) {
      assert ConnValid(st, d) && SendsConserved(st, d) && FramesConserved(st, d);
    }
    assert Live(held.conns[c]);
  }

  lemma TakeKeeps(st: State, c: ConnId)
    requires Inv(st) && Enabled(st, Take(c))
    ensures Inv(Next(st, Take(c)))
  {
    hide SentOn, FramesOf, TornDown, Put, Shaken, Heard;
    var after := Next(st, Take(c));
    forall d: ConnId | d < |after.conns| ensures ConnValid(after, d) && SendsConserved(after, d) && FramesConserved(after, d) {
      assert ConnValid(st, d) && SendsConserved(st, d) && FramesConserved(st, d);
    }
  }

  lemma WriteOkKeeps(st: State, c: ConnId)
    requires Inv(st) && Enabled(st, WriteOk(c))
    ensures Inv(Next(st, WriteOk(c)))
  {
    hide SentOn, FramesOf, TornDown, Put, Shaken, Heard;
    var after := Next(st, WriteOk(c));
    forall d: ConnId | d < |after.conns| ensures ConnValid(after, d) && SendsConserved(after, d) && FramesConserved(after, d) {
      assert ConnValid(st, d) && SendsConserved(st, d) && FramesConserved(st, d);
    }
  }

  lemma WriteFailKeeps(st: State, c: ConnId)
    requires Inv(st) && Enabled(st, WriteFail(c))
    ensures Inv(Next(st, WriteFail(c)))
  {
    hide SentOn, FramesOf, TornDown, Put, Shaken, Heard;
    var after := Next(st, WriteFail(c));
    forall d: ConnId | d < |after.conns| ensures ConnValid(after, d) && SendsConserved(after, d) && FramesConserved(after, d) {
      assert ConnValid(st, d) && SendsConserved(st, d) && FramesConserved(st, d);
    }
  }

  lemma SendKeeps(st: State, to: SenderId, payload: Payload)
    requires Inv(st)
    ensures Inv(Next(st, Send(to, payload)))
  {
    hide SentOn, FramesOf;
    if SendResult(st, to) == Delivered {
      var c := st.peers[to];
      var after := Next(st, Send(to, payload));
      forall d: ConnId | d < |after.conns| ensures ConnValid(after, d) && SendsConserved(after, d) && FramesConserved(after, d) {
        SentOnMore(st.accepted, Delivery(c, to, payload), d);
        assert ConnValid(st, d) && SendsConserved(st, d) && FramesConserved(st, d);
      }
    }
  }

  lemma HandOverKeeps(st: State)
    requires Inv(st) && st.incoming != []
    ensures Inv(Next(st, HandOver))
  {
    hide SentOn, FramesOf;
    var after := Next(st, HandOver);
    assert after.handed + after.incoming == st.handed + st.incoming;
    forall d: ConnId | d < |after.conns| ensures ConnValid(after, d) && SendsConserved(after, d) && FramesConserved(after, d) {
      assert ConnValid(st, d) && SendsConserved(st, d) && FramesConserved(st, d);
    }
  }

  lemma PutResumesKeeps(st: State, c: ConnId)
    requires Inv(st) && Enabled(st, PutResumes(c))
    ensures Inv(Next(st, PutResumes(c)))
  {
    hide SentOn, FramesOf;
    assert ConnValid(st, c);
    assert st.conns[c := st.conns[c].(handler := Putting(st.conns[c].handler.frame))] == st.conns;
    PutKeeps(st, c, st.conns[c].handler.frame);
  }

  lemma ReceiveKeeps(st: State, c: ConnId, frame: Frame)
    requires Inv(st) && Enabled(st, Receive(c, frame))
    ensures Inv(Next(st, Receive(c, frame)))
  {
    hide Inv;
    if st.conns[c].senderId.Some? {
      HeardKeeps(st, c, frame);
      QueueBounded(st);
      PutKeeps(Heard(st, c, frame), c, frame);
    } else if Verifies(frame, st.expected) {
      ShakenKeeps(st, c, frame);
      QueueBounded(st);
      PutKeeps(Shaken(Heard(st, c, frame), c, frame), c, frame);
    } else {
      TornDownKeeps(st, c);
    }
  }

  lemma QueueBounded(st: State)
    requires Inv(st)
    ensures |st.incoming| <= INCOMING_QUEUE_MAXSIZE
  {
  }

  lemma {:induction false} NextKeeps(st: State, step: Step)
    requires Inv(st)
    ensures Inv(Next(st, step))
  {
    hide Inv, TornDown, Put;
    if Enabled(st, step) {
      match step
      case Connect => ConnectKeeps(st);
      case Receive(c, frame) => ReceiveKeeps(st, c, frame);
      case HangUp(c) => TornDownKeeps(st, c);
      case PutResumes(c) => PutResumesKeeps(st, c);
      case Cancel(c) => TornDownKeeps(st, c);
      case Take(c) => TakeKeeps(st, c);
      case WriteOk(c) => WriteOkKeeps(st, c);
      case WriteFail(c) => WriteFailKeeps(st, c);
      case Send(to, payload) => SendKeeps(st, to, payload);
      case HandOver => HandOverKeeps(st);
    }
  }

  // Runs

  datatype Run = Start(expected: ProtoHash) | Then(before: Run, step: Step)

  function Exec(run: Run): State {
    match run
    case Start(expected) => Initial(expected)
    case Then(before, step) => Next(Exec(before), step)
  }

  predicate Legal(run: Run) { run.Then? ==> Legal(run.before) && Enabled(Exec(run.before), run.step) }

  function Expected(run: Run): ProtoHash { if run.Start? then run.expected else Expected(run.before) }

  lemma {:induction false} RunsKeepInv(run: Run)
    ensures Inv(Exec(run)) && Exec(run).expected == Expected(run)
  {
    if run.Then? {
      RunsKeepInv(run.before);
      NextKeeps(Exec(run.before), run.step);
      ExpectedFixed(Exec(run.before), run.step);
    }
  }

  lemma ExpectedFixed(st: State, step: Step)
    ensures Next(st, step).expected == st.expected
  {
  }

  // The connection has been heard.
  predicate Spoke(run: Run, c: ConnId) {
    run.Then? && ((run.step.Receive? && run.step.c == c) || Spoke(run.before, c))
  }

  // The connection was torn down: it hung up, was cancelled, or failed to write.
  predicate Down(run: Run, c: ConnId) {
    run.Then? && (((run.step.HangUp? || run.step.Cancel? || run.step.WriteFail?) && run.step.c == c) || Down(run.before, c))
  }

  // The latest connection whose first frame was a hello of s with the right hash.
  function Latest(run: Run, s: SenderId): Option<ConnId> {
    if run.Start? then None
    else if run.step.Receive? && run.step.frame == SenderHello(s, Expected(run)) && !Spoke(run.before, run.step.c)
    then Some(run.step.c)
    else Latest(run.before, s)
  }

  ghost predicate TracksConn(run: Run, st: State, c: ConnId) {
    && (c >= |st.conns| ==> !Spoke(run, c) && !Down(run, c))
    && (c < |st.conns| && st.conns[c].handler != Closed ==> (Spoke(run, c) <==> st.conns[c].senderId.Some?))
    && (c < |st.conns| && st.conns[c].handler != Closed && !st.conns[c].writer.Stopped? ==> !Down(run, c))
    && (c < |st.conns| && st.conns[c].senderId.Some? && (st.conns[c].handler == Closed || st.conns[c].writer.Stopped?) ==> Down(run, c))
  }

  ghost predicate TracksSender(run: Run, st: State, s: SenderId) {
    && (Latest(run, s).Some? ==> Latest(run, s).value < |st.conns| && st.conns[Latest(run, s).value].senderId == Some(s))
    && (s in st.peers <==> Latest(run, s).Some? && !Down(run, Latest(run, s).value))
    && (s in st.peers ==> st.peers[s] == Latest(run, s).value)
  }

  lemma {:induction false} ConnsTracked(run: Run)
    requires Legal(run)
    ensures forall c: ConnId :: TracksConn(run, Exec(run), c)
  {
    if run.Then? {
      ConnsTracked(run.before);
      RunsKeepInv(run.before);
      forall c: ConnId ensures TracksConn(run, Exec(run), c) {
        assert TracksConn(run.before, Exec(run.before), c);
        ConnTrackedStep(run, c);
      }
    }
  }

  lemma ConnTrackedStep(run: Run, c: ConnId)
    requires run.Then? && Legal(run) && Inv(Exec(run.before)) && TracksConn(run.before, Exec(run.before), c)
    ensures TracksConn(run, Exec(run), c)
  {
    hide Exec, TracksConn, Inv, Enabled;
    if run.step.Receive? { ConnTrackedReceive(run, c); } else { ConnTrackedOther(run, c); }
  }

  lemma ConnTrackedReceive(run: Run, c: ConnId)
    requires run.Then? && Legal(run) && Inv(Exec(run.before)) && TracksConn(run.before, Exec(run.before), c)
    requires run.step.Receive?
    ensures TracksConn(run, Exec(run), c)
  {
    hide SentOn, FramesOf, SendsConserved, FramesConserved, ItemsValid, DeliveriesValid, Exec, Blocked, InHand, Unregistered;
    ExecThen(run);
    var st := Exec(run.before);
    if c < |st.conns| { assert ConnValid(st, c); }
  }

  lemma ConnTrackedOther(run: Run, c: ConnId)
    requires run.Then? && Legal(run) && Inv(Exec(run.before)) && TracksConn(run.before, Exec(run.before), c)
    requires !run.step.Receive?
    ensures TracksConn(run, Exec(run), c)
  {
    hide SentOn, FramesOf, SendsConserved, FramesConserved, ItemsValid, DeliveriesValid, Exec, Blocked, InHand, Unregistered, Heard, Shaken;
    ExecThen(run);
    var st := Exec(run.before);
    if c < |st.conns| { assert ConnValid(st, c); }
  }

  lemma ExecThen(run: Run)
    requires run.Then?
    ensures Exec(run) == Next(Exec(run.before), run.step)
  {
  }

  /** The table maps s to the send queue of the latest connection that shook hands as s, if that connection
      has not been torn down, and to nothing otherwise, in every run with any number of reconnections. */
  lemma {:induction false} PeersAreLatest(run: Run, s: SenderId)
    requires Legal(run)
    ensures s in Exec(run).peers <==> Latest(run, s).Some? && !Down(run, Latest(run, s).value)
    ensures s in Exec(run).peers ==> Exec(run).peers[s] == Latest(run, s).value
    ensures TracksSender(run, Exec(run), s)
  {
    if run.Then? {
      PeersAreLatest(run.before, s);
      RunsKeepInv(run.before);
      ConnsTracked(run.before);
      SenderTrackedStep(run, s);
    }
  }

  lemma SenderTrackedStep(run: Run, s: SenderId)
    requires run.Then? && Legal(run) && Inv(Exec(run.before)) && Exec(run.before).expected == Expected(run)
    requires forall c: ConnId :: TracksConn(run.before, Exec(run.before), c)
    requires TracksSender(run.before, Exec(run.before), s)
    ensures TracksSender(run, Exec(run), s)
  {
    hide Exec, TracksConn, TracksSender, Inv, Enabled;
    if run.step.Receive? && Verifies(run.step.frame, Expected(run)) {
      SenderTrackedHello(run, s);
    } else if run.step.Receive? {
      SenderTrackedReceive(run, s);
    } else if run.step.HangUp? || run.step.Cancel? || run.step.WriteFail? {
      SenderTrackedDown(run, s);
    } else {
      SenderTrackedOther(run, s);
    }
  }

  lemma SenderTrackedHello(run: Run, s: SenderId)
    requires run.Then? && Legal(run) && Inv(Exec(run.before)) && Exec(run.before).expected == Expected(run)
    requires forall c: ConnId :: TracksConn(run.before, Exec(run.before), c)
    requires TracksSender(run.before, Exec(run.before), s)
    requires run.step.Receive? && Verifies(run.step.frame, Expected(run))
    ensures TracksSender(run, Exec(run), s)
  {
    hide SentOn, FramesOf, SendsConserved, FramesConserved, ItemsValid, DeliveriesValid, Exec, Blocked, InHand, TornDown;
    ExecThen(run);
    var st := Exec(run.before);
    if Latest(run.before, s).Some? {
      assert TracksConn(run.before, st, Latest(run.before, s).value);
      assert ConnValid(st, Latest(run.before, s).value);
    }
    assert TracksConn(run.before, st, run.step.c);
    assert ConnValid(st, run.step.c);
  }

  lemma SenderTrackedReceive(run: Run, s: SenderId)
    requires run.Then? && Legal(run) && Inv(Exec(run.before)) && Exec(run.before).expected == Expected(run)
    requires forall c: ConnId :: TracksConn(run.before, Exec(run.before), c)
    requires TracksSender(run.before, Exec(run.before), s)
    requires run.step.Receive? && !Verifies(run.step.frame, Expected(run))
    ensures TracksSender(run, Exec(run), s)
  {
    hide SentOn, FramesOf, SendsConserved, FramesConserved, ItemsValid, DeliveriesValid, Exec, Blocked, InHand, Shaken;
    ExecThen(run);
    var st := Exec(run.before);
    if Latest(run.before, s).Some? {
      assert TracksConn(run.before, st, Latest(run.before, s).value);
      assert ConnValid(st, Latest(run.before, s).value);
    }
    assert TracksConn(run.before, st, run.step.c);
    assert ConnValid(st, run.step.c);
  }

  lemma SenderTrackedDown(run: Run, s: SenderId)
    requires run.Then? && Legal(run) && Inv(Exec(run.before)) && Exec(run.before).expected == Expected(run)
    requires forall c: ConnId :: TracksConn(run.before, Exec(run.before), c)
    requires TracksSender(run.before, Exec(run.before), s)
    requires run.step.HangUp? || run.step.Cancel? || run.step.WriteFail?
    ensures TracksSender(run, Exec(run), s)
  {
    hide SentOn, FramesOf, SendsConserved, FramesConserved, ItemsValid, DeliveriesValid, Exec, Blocked, InHand;
    ExecThen(run);
    var st := Exec(run.before);
    if Latest(run.before, s).Some? {
      assert TracksConn(run.before, st, Latest(run.before, s).value);
      assert ConnValid(st, Latest(run.before, s).value);
    }
  }

  lemma SenderTrackedOther(run: Run, s: SenderId)
    requires run.Then? && Legal(run) && Inv(Exec(run.before)) && Exec(run.before).expected == Expected(run)
    requires forall c: ConnId :: TracksConn(run.before, Exec(run.before), c)
    requires TracksSender(run.before, Exec(run.before), s)
    requires !run.step.Receive? && !run.step.HangUp? && !run.step.Cancel? && !run.step.WriteFail?
    ensures TracksSender(run, Exec(run), s)
  {
    hide SentOn, FramesOf, SendsConserved, FramesConserved, ItemsValid, DeliveriesValid, Exec, Blocked, InHand;
    ExecThen(run);
    var st := Exec(run.before);
  }

  predicate HelloFirst(conn: Conn, s: SenderId, expected: ProtoHash) {
    conn.received != [] && conn.received[0] == SenderHello(s, expected)
  }

  ghost predicate Verified(st: State, s: SenderId) {
    exists c: ConnId :: c < |st.conns| && HelloFirst(st.conns[c], s, st.expected)
  }

  // The first frame ever received on a connection, accepted or not.
  function FirstFrame(run: Run, c: ConnId): Option<Frame> {
    if run.Start? then None
    else if FirstFrame(run.before, c).Some? then FirstFrame(run.before, c)
    else if run.step.Receive? && run.step.c == c then Some(run.step.frame)
    else None
  }

  lemma {:induction false} SpokeFirst(run: Run, c: ConnId)
    ensures Spoke(run, c) <==> FirstFrame(run, c).Some?
  {
    if run.Then? { SpokeFirst(run.before, c); }
  }

  /** A connection that has an id got it from the very first frame received on it, that id's hello with the
      expected hash; a refused first frame is never made good by a later one. */
  lemma {:induction false} FirstFrameWasHello(run: Run, c: ConnId)
    requires Legal(run) && c < |Exec(run).conns| && Exec(run).conns[c].senderId.Some?
    ensures FirstFrame(run, c) == Some(SenderHello(Exec(run).conns[c].senderId.value, Expected(run)))
  {
    hide Exec, Legal, Inv, Enabled;
    if run.Then? {
      LegalParts(run);
      ExecThen(run);
      RunsKeepInv(run.before);
      SenderIdStep(Exec(run.before), run.step, c);
      if c < |Exec(run.before).conns| && Exec(run.before).conns[c].senderId.Some? {
        FirstFrameWasHello(run.before, c);
      } else {
        ConnsTracked(run.before);
        assert TracksConn(run.before, Exec(run.before), c);
        SpokeFirst(run.before, c);
      }
    } else {
      NoConns(run);
    }
  }

  lemma LegalParts(run: Run)
    requires Legal(run) && run.Then?
    ensures Legal(run.before) && Enabled(Exec(run.before), run.step)
  {
  }

  lemma NoConns(run: Run)
    requires run.Start?
    ensures Exec(run).conns == []
  {
  }

  // An id is given once, by a hello, to a connection that is still open.
  lemma SenderIdStep(st: State, step: Step, c: ConnId)
    requires Enabled(st, step) && c < |Next(st, step).conns|
    ensures c < |st.conns| && st.conns[c].senderId.Some? ==> Next(st, step).conns[c].senderId == st.conns[c].senderId
    ensures Next(st, step).conns[c].senderId.Some? && !(c < |st.conns| && st.conns[c].senderId.Some?) ==>
      (step.Receive? && step.c == c && step.frame == SenderHello(Next(st, step).conns[c].senderId.value, st.expected)
       && c < |st.conns| && st.conns[c].handler == Receiving)
  {
  }

  // A connection whose first frame was the hello of s with the expected hash.
  ghost predicate SaidHelloFirst(run: Run, s: SenderId) {
    exists c: ConnId :: FirstFrame(run, c) == Some(SenderHello(s, Expected(run)))
  }

  /** A verified id is one that some connection said hello for in its first frame. */
  lemma {:induction false} VerifiedSaidHello(run: Run, s: SenderId)
    requires Legal(run) && Verified(Exec(run), s)
    ensures SaidHelloFirst(run, s)
  {
    hide Exec, Legal, SendsConserved, FramesConserved, ItemsValid, DeliveriesValid, FirstFrame;
    RunsKeepInv(run);
    var st := Exec(run);
    var c: ConnId :| c < |st.conns| && HelloFirst(st.conns[c], s, st.expected);
    assert ConnValid(st, c);
    FirstFrameWasHello(run, c);
  }

  /** A sender id in the table belongs to a connection whose first frame was its hello with the right hash. */
  lemma {:induction false} PeersAreVerified(run: Run, s: SenderId)
    requires Legal(run) && s in Exec(run).peers
    ensures FirstFrame(run, Exec(run).peers[s]) == Some(SenderHello(s, Expected(run)))
    ensures Exec(run).peers[s] < |Exec(run).conns| && HelloFirst(Exec(run).conns[Exec(run).peers[s]], s, Expected(run))
  {
    hide SentOn, FramesOf, Exec, FirstFrame;
    RunsKeepInv(run);
    assert ConnValid(Exec(run), Exec(run).peers[s]);
    FirstFrameWasHello(run, Exec(run).peers[s]);
  }

  /** `send` reports an unknown sender exactly when the latest connection of that id is gone, a full queue
      exactly when that connection's queue holds 64, and otherwise appends to precisely that queue. */
  lemma {:induction false} SendReachesTheLatest(run: Run, to: SenderId, payload: Payload)
    requires Legal(run)
    ensures var st, after := Exec(run), Exec(Then(run, Send(to, payload)));
      var latest := Latest(run, to);
      && (SendResult(st, to) == UnknownSender <==> latest == None || Down(run, latest.value))
      && (SendResult(st, to) != UnknownSender ==> latest.value < |st.conns|)
      && (SendResult(st, to) == QueueFull ==> |st.conns[latest.value].queue| == SEND_QUEUE_MAXSIZE)
      && (SendResult(st, to) == Delivered ==> |st.conns[latest.value].queue| < SEND_QUEUE_MAXSIZE)
      && after == if SendResult(st, to) != Delivered then st else st.(
           conns := st.conns[latest.value := st.conns[latest.value].(queue := st.conns[latest.value].queue + [payload])],
           accepted := st.accepted + [Delivery(latest.value, to, payload)])
  {
    PeersAreLatest(run, to);
    RunsKeepInv(run);
    if to in Exec(run).peers { assert ConnValid(Exec(run), Exec(run).peers[to]); }
  }

  /** In every run the messages `send` accepted for a connection are, in order, those written to it, at most
      one in its writer's hands, and those in its queue, which never exceeds 64; so what is written is always
      a beginning of what was accepted, also after a failed write. */
  lemma {:induction false} SendSideFifo(run: Run, c: ConnId)
    requires c < |Exec(run).conns|
    ensures var st := Exec(run); var conn := st.conns[c];
      && SentOn(st.accepted, c) == conn.written + InHand(conn.writer) + conn.queue
      && |InHand(conn.writer)| <= 1 && |conn.queue| <= SEND_QUEUE_MAXSIZE
      && conn.written <= SentOn(st.accepted, c)
  {
    hide SentOn, FramesOf, Exec;
    RunsKeepInv(run);
    assert ConnValid(Exec(run), c) && SendsConserved(Exec(run), c);
  }

  /** In every run the frames received on a connection from its hello on are, in order, those handed to the
      dispatch loop, those waiting in the shared queue, and at most one that its handler could not put. */
  lemma {:induction false} ReceiveSideFifo(run: Run, c: ConnId)
    requires c < |Exec(run).conns|
    ensures var st := Exec(run); var conn := st.conns[c]; var held := Blocked(conn.handler) + conn.dropped;
      && conn.received == FramesOf(st.handed + st.incoming, c) + held && |held| <= 1
      && (conn.dropped != [] ==> conn.handler == Closed)
      && |st.incoming| <= INCOMING_QUEUE_MAXSIZE
      && (conn.senderId.Some? ==> conn.received != [] && conn.received[0] == SenderHello(conn.senderId.value, Expected(run)))
  {
    hide SentOn, FramesOf, Exec;
    RunsKeepInv(run);
    assert ConnValid(Exec(run), c) && FramesConserved(Exec(run), c);
  }

  /** Every frame handed over or queued carries the id its connection's hello fixed, and every message ever
      accepted for a connection was addressed to that id. */
  lemma {:induction false} NothingStrays(run: Run)
    ensures var st := Exec(run);
      && (forall item :: item in st.handed + st.incoming ==>
           item.conn < |st.conns| && st.conns[item.conn].senderId == Some(item.senderId))
      && (forall d :: d in st.accepted ==> d.conn < |st.conns| && st.conns[d.conn].senderId == Some(d.to))
  {
    hide SentOn, FramesOf, Exec;
    RunsKeepInv(run);
  }

  lemma {:induction false} SentOnSource(log: seq<Delivery>, c: ConnId, i: nat)
    requires i < |SentOn(log, c)|
    ensures exists d :: d in log && d.conn == c && d.payload == SentOn(log, c)[i]
  {
    var n := |log| - 1;
    if i < |SentOn(log[..n], c)| {
      SentOnSource(log[..n], c, i);
      var d :| d in log[..n] && d.conn == c && d.payload == SentOn(log[..n], c)[i];
      assert d in log;
    } else {
      assert log[n] in log;
    }
  }

  /** Every message written on a connection verified as s was addressed to s. */
  lemma {:induction false} WrittenWasAddressed(run: Run, c: ConnId, i: nat)
    requires Legal(run) && c < |Exec(run).conns| && i < |Exec(run).conns[c].written|
    ensures var st := Exec(run);
      st.conns[c].senderId.Some? && FirstFrame(run, c) == Some(SenderHello(st.conns[c].senderId.value, Expected(run)))
      && Delivery(c, st.conns[c].senderId.value, st.conns[c].written[i]) in st.accepted
  {
    hide SentOn, FramesOf, Exec;
    RunsKeepInv(run);
    SendSideFifo(run, c);
    var st := Exec(run);
    assert ConnValid(st, c);
    assert st.conns[c].written[i] == SentOn(st.accepted, c)[i];
    SentOnSource(st.accepted, c, i);
    FirstFrameWasHello(run, c);
  }

  // What was received stays received.
  lemma {:induction false} VerifiedPersists(st: State, step: Step, s: SenderId)
    requires Verified(st, s)
    ensures Verified(Next(st, step), s)
  {
    hide TornDown, Put, Shaken, Heard;
    var c: ConnId :| c < |st.conns| && HelloFirst(st.conns[c], s, st.expected);
    ReceivedGrows(st, step, c);
    assert HelloFirst(Next(st, step).conns[c], s, Next(st, step).expected);
  }

  lemma ReceivedGrows(st: State, step: Step, c: ConnId)
    requires c < |st.conns|
    ensures c < |Next(st, step).conns| && st.conns[c].received <= Next(st, step).conns[c].received
    ensures Next(st, step).expected == st.expected
  {
  }

  lemma SenderIdsAreVerified(st: State, c: ConnId)
    requires Inv(st) && c < |st.conns| && st.conns[c].senderId.Some?
    ensures Verified(st, st.conns[c].senderId.value)
  {
    assert ConnValid(st, c);
    assert HelloFirst(st.conns[c], st.conns[c].senderId.value, st.expected);
  }
}
