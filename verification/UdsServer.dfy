/** The socket server with its queues as objects: the table of peers holds references to send queues, and
    whether an entry is still one's own is decided by comparing references. Each method is what one task
    does between two awaits; together they take exactly the steps of the step system. */
module UdsServer {
  import opened Outcomes
  import opened Domain
  import opened Wire
  import Uds

  class SendQueue {
    ghost const owner: Uds.ConnId
    var items: seq<AssignSession>

    constructor (ghost owner: Uds.ConnId)
      ensures this.owner == owner && items == []
    {
      this.owner := owner;
      items := [];
    }
  }

  // The variables of one connection's handler and writer tasks.
  class PeerHandler {
    ghost const id: Uds.ConnId
    const sendQueue: SendQueue
    var senderId: Option<SenderId>
    var phase: Uds.Handler
    var writer: Uds.Writer

    constructor (ghost id: Uds.ConnId)
      ensures fresh(sendQueue) && sendQueue.items == []
      ensures this.id == id && sendQueue.owner == id
      ensures senderId == None && phase == Uds.Receiving && writer == Uds.NoWriter
    {
      this.id := id;
      sendQueue := new SendQueue(id);
      senderId := None;
      phase := Uds.Receiving;
      writer := Uds.NoWriter;
    }

    ghost predicate Shows(conn: Uds.Conn)
      reads this, sendQueue
    {
      senderId == conn.senderId && phase == conn.handler && writer == conn.writer && sendQueue.items == conn.queue
    }
  }

  function Untagged(items: seq<Uds.Item>): seq<(SenderId, Frame)> {
    seq(|items|, i requires 0 <= i < |items| => (items[i].senderId, items[i].frame))
  }

  class UdsIpcServer {
    const expectedProtoHash: ProtoHash
    var peers: map<SenderId, SendQueue>
    var incoming: seq<(SenderId, Frame)>
    ghost var handlers: seq<PeerHandler>
    ghost var st: Uds.State
    ghost var run: Uds.Run

    // The objects show the abstract state.
    ghost predicate Shows()
      reads `handlers, `st, `peers, `incoming, handlers, set h | h in handlers :: h.sendQueue
    {
      && st.expected == expectedProtoHash
      && |handlers| == |st.conns|
      && (forall c :: 0 <= c < |handlers| ==> handlers[c].id == c && handlers[c].sendQueue.owner == c)
      && (forall c :: 0 <= c < |handlers| ==> handlers[c].Shows(st.conns[c]))
      && peers.Keys == st.peers.Keys
      && (forall s :: s in peers ==> st.peers[s] < |handlers| && peers[s] == handlers[st.peers[s]].sendQueue)
      && incoming == Untagged(st.incoming)
    }

    ghost predicate Valid()
      reads this, handlers, set h | h in handlers :: h.sendQueue
    {
      Shows() && Uds.Legal(run) && Uds.Exec(run) == st
    }

    constructor (expectedProtoHash: ProtoHash)
      ensures Valid() && run == Uds.Start(expectedProtoHash) && handlers == []
    {
      this.expectedProtoHash := expectedProtoHash;
      peers := map[];
      incoming := [];
      handlers := [];
      st := Uds.Initial(expectedProtoHash);
      run := Uds.Start(expectedProtoHash);
    }

    ghost method Stepped(step: Uds.Step)
      requires Uds.Legal(run) && Uds.Enabled(Uds.Exec(run), step) && st == Uds.Next(Uds.Exec(run), step)
      modifies this`run
      ensures run == Uds.Then(old(run), step) && Uds.Legal(run) && Uds.Exec(run) == st
    {
      run := Uds.Then(run, step);
    }

    method Accept() returns (h: PeerHandler)
      requires Valid()
      modifies this
      ensures Valid() && run == Uds.Then(old(run), Uds.Connect)
      ensures fresh(h) && fresh(h.sendQueue) && handlers == old(handlers) + [h] && peers == old(peers)
    {
      hide Uds.Exec, Uds.Legal;
      h := new PeerHandler(|handlers|);
      handlers := handlers + [h];
      st := Uds.Next(st, Uds.Connect);
      Stepped(Uds.Connect);
    }

    // A received datagram: the first one must be a valid hello, and all of them go to the shared queue.
    method Receive(h: PeerHandler, raw: Frame)
      requires Valid() && h in handlers && h.phase == Uds.Receiving
      modifies this`peers, this`incoming, this`st, this`run, h
      ensures Valid() && run == Uds.Then(old(run), Uds.Receive(h.id, raw))
      ensures h.sendQueue.items == old(h.sendQueue.items)
    {
      hide Uds.Exec, Uds.Legal, Shows, Uds.Shaken, Uds.Put, Uds.TornDown;
      MayReceive(h, raw);
      if h.senderId == None {
        var accepted := CompleteHandshake(h, raw);
        if !accepted {
          TearDown(h);
          Stepped(Uds.Receive(h.id, raw));
          return;
        }
      } else {
        Hear(h, raw);
      }
      PutIncoming(h, raw);
      Stepped(Uds.Receive(h.id, raw));
    }

    lemma MayReceive(h: PeerHandler, raw: Frame)
      requires Shows() && h in handlers && h.phase == Uds.Receiving
      ensures Uds.Enabled(st, Uds.Receive(h.id, raw)) && st.conns[h.id].senderId == h.senderId
      ensures st.expected == expectedProtoHash
    {
    }

    method CompleteHandshake(h: PeerHandler, raw: Frame) returns (accepted: bool)
      requires Shows() && h in handlers && h.senderId == None
      modifies this`peers, this`st, h`senderId, h`writer
      ensures Shows() && accepted == Uds.Verifies(raw, expectedProtoHash)
      ensures st == if accepted then Uds.Shaken(Uds.Heard(old(st), h.id, raw), h.id, raw) else old(st)
      ensures accepted ==> h.senderId.Some?
      ensures !accepted ==> peers == old(peers) && h.senderId == None && h.writer == old(h.writer)
    {
      hide Uds.Exec, Uds.Legal;
      if !raw.SenderHello? { return false; }
      if raw.protoHash != expectedProtoHash { return false; }
      peers := peers[raw.senderId := h.sendQueue];
      h.senderId := Some(raw.senderId);
      h.writer := Uds.Waiting;
      st := Uds.Shaken(Uds.Heard(st, h.id, raw), h.id, raw);
      return true;
    }

    ghost method Hear(h: PeerHandler, raw: Frame)
      requires Shows() && h in handlers
      modifies this`st
      ensures Shows() && st == Uds.Heard(old(st), h.id, raw)
    {
      st := Uds.Heard(st, h.id, raw);
    }

    method PutIncoming(h: PeerHandler, raw: Frame)
      requires Shows() && h in handlers && h.senderId.Some?
      modifies this`incoming, this`st, h`phase
      ensures Shows() && st == Uds.Put(old(st), h.id, raw)
    {
      hide Uds.Exec, Uds.Legal;
      if |incoming| < Uds.INCOMING_QUEUE_MAXSIZE {
        incoming := incoming + [(h.senderId.value, raw)];
        h.phase := Uds.Receiving;
      } else {
        h.phase := Uds.Putting(raw);
      }
      st := Uds.Put(st, h.id, raw);
    }

    // What the handler does however it ends: the entry goes if it is still this queue, the writer stops.
    method TearDown(h: PeerHandler)
      requires Shows() && h in handlers
      modifies this`peers, this`st, h`phase, h`writer
      ensures Shows() && st == Uds.TornDown(old(st), h.id)
    {
      hide Uds.Exec, Uds.Legal;
      if h.senderId.Some? {
        if h.senderId.value in peers && peers[h.senderId.value] == h.sendQueue {
          peers := peers - {h.senderId.value};
        }
      }
      if h.writer != Uds.NoWriter { h.writer := Uds.Stopped(Uds.InHand(h.writer)); }
      h.phase := Uds.Closed;
      st := Uds.TornDown(st, h.id);
    }

    method HangUp(h: PeerHandler)
      requires Valid() && h in handlers && h.phase == Uds.Receiving
      modifies this`peers, this`st, this`run, h
      ensures Valid() && run == Uds.Then(old(run), Uds.HangUp(h.id))
    {
      hide Uds.Exec, Uds.Legal;
      TearDown(h);
      Stepped(Uds.HangUp(h.id));
    }

    method Cancel(h: PeerHandler)
      requires Valid() && h in handlers && h.phase != Uds.Closed
      modifies this`peers, this`st, this`run, h
      ensures Valid() && run == Uds.Then(old(run), Uds.Cancel(h.id))
    {
      hide Uds.Exec, Uds.Legal;
      TearDown(h);
      Stepped(Uds.Cancel(h.id));
    }

    method PutResumes(h: PeerHandler)
      requires Valid() && h in handlers && h.phase.Putting? && |incoming| < Uds.INCOMING_QUEUE_MAXSIZE
      modifies this`incoming, this`st, this`run, h
      ensures Valid() && run == Uds.Then(old(run), Uds.PutResumes(h.id))
      ensures h.senderId.Some? && incoming == old(incoming) + [(h.senderId.value, old(h.phase.frame))]
    {
      hide Uds.Exec, Uds.Legal;
      Uds.RunsKeepInv(run);
      assert Uds.ConnValid(st, h.id);
      PutIncoming(h, h.phase.frame);
      Stepped(Uds.PutResumes(h.id));
    }

    method WriterTakes(h: PeerHandler)
      requires Valid() && h in handlers && h.writer == Uds.Waiting && h.sendQueue.items != []
      modifies this`st, this`run, h, h.sendQueue
      ensures Valid() && run == Uds.Then(old(run), Uds.Take(h.id))
      ensures h.writer == Uds.Writing(old(h.sendQueue.items)[0])
    {
      hide Uds.Exec, Uds.Legal;
      h.writer := Uds.Writing(h.sendQueue.items[0]);
      h.sendQueue.items := h.sendQueue.items[1..];
      st := Uds.Next(st, Uds.Take(h.id));
      Stepped(Uds.Take(h.id));
    }

    method WriterWrote(h: PeerHandler)
      requires Valid() && h in handlers && h.writer.Writing?
      modifies this`st, this`run, h
      ensures Valid() && run == Uds.Then(old(run), Uds.WriteOk(h.id))
    {
      hide Uds.Exec, Uds.Legal;
      h.writer := Uds.Waiting;
      st := Uds.Next(st, Uds.WriteOk(h.id));
      Stepped(Uds.WriteOk(h.id));
    }

    method WriterFailed(h: PeerHandler)
      requires Valid() && h in handlers && h.writer.Writing?
      modifies this`peers, this`st, this`run, h
      ensures Valid() && run == Uds.Then(old(run), Uds.WriteFail(h.id))
    {
      hide Uds.Exec, Uds.Legal;
      if h.senderId.Some? {
        if h.senderId.value in peers && peers[h.senderId.value] == h.sendQueue {
          peers := peers - {h.senderId.value};
        }
      }
      h.writer := Uds.Stopped([h.writer.payload]);
      st := Uds.Next(st, Uds.WriteFail(h.id));
      Stepped(Uds.WriteFail(h.id));
    }

    method Send(to: SenderId, payload: AssignSession) returns (outcome: SendOutcome)
      requires Valid()
      modifies this`st, this`run, set h | h in handlers :: h.sendQueue
      ensures Valid() && run == Uds.Then(old(run), Uds.Send(to, payload)) && outcome == Uds.SendResult(old(st), to)
      ensures outcome == Delivered ==> to in peers && peers[to].items == old(peers[to].items) + [payload]
      ensures forall h :: h in handlers && (outcome != Delivered || h.sendQueue != peers[to]) ==> h.sendQueue.items == old(h.sendQueue.items)
    {
      hide Uds.Exec, Uds.Legal;
      if to !in peers {
        outcome := UnknownSender;
      } else {
        var queue := peers[to];
        if |queue.items| >= Uds.SEND_QUEUE_MAXSIZE {
          outcome := QueueFull;
        } else {
          queue.items := queue.items + [payload];
          outcome := Delivered;
        }
      }
      st := Uds.Next(st, Uds.Send(to, payload));
      Stepped(Uds.Send(to, payload));
    }

    method NextIncoming() returns (item: (SenderId, Frame))
      requires Valid() && incoming != []
      modifies this`incoming, this`st, this`run
      ensures Valid() && run == Uds.Then(old(run), Uds.HandOver)
      ensures [item] + incoming == old(incoming)
    {
      hide Uds.Exec, Uds.Legal;
      item := incoming[0];
      incoming := incoming[1..];
      st := Uds.Next(st, Uds.HandOver);
      Stepped(Uds.HandOver);
    }
  }
}
