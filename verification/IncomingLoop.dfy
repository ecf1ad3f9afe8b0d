/** The loop that takes frames from the shared queue and tells the registry and the dispatcher about them.
    A frame that cannot be decoded ends it. */
module IncomingLoop {
  import opened Outcomes
  import opened Domain
  import opened Wire
  import Registry
  import Dispatcher
  import Uds
  import UdsServer
  import WholeSystem

  type Item = (SenderId, Frame)

  // The frames the loop takes from a queue: all, or those up to the first that cannot be decoded.
  function Taken(queue: seq<Item>): (taken: seq<Item>)
    ensures taken <= queue
    ensures taken == queue || (taken != [] && taken[|taken| - 1].1 == Undecodable)
    ensures forall i :: 0 <= i < |taken| - 1 ==> taken[i].1 != Undecodable
  {
    if queue == [] then [] else if queue[0].1 == Undecodable then queue[..1] else [queue[0]] + Taken(queue[1..])
  }

  // The table after the handlers of these frames, each of which reads the clock for itself.
  function AllHeard(lastSeen: map<SenderId, Registry.Time>, frames: seq<Item>, readings: seq<Registry.Time>): map<SenderId, Registry.Time>
    requires |frames| <= |readings|
    decreases |frames|
  {
    if frames == [] then lastSeen else
      AllHeard(WholeSystem.Heard(lastSeen, frames[0].0, frames[0].1, readings[0]), frames[1..], readings[1..])
  }

  // The clock never goes back.
  predicate Rising(readings: seq<Registry.Time>, from: Registry.Time) {
    && (forall i :: 0 <= i < |readings| ==> from <= readings[i])
    && (forall i, j :: 0 <= i < j < |readings| ==> readings[i] <= readings[j])
  }

  function AllCompleted(recorded: map<SessionId, seq<SenderId>>, frames: seq<Item>): map<SessionId, seq<SenderId>>
    decreases |frames|
  {
    if frames == [] then recorded else AllCompleted(WholeSystem.Completed(recorded, frames[0].1), frames[1..])
  }

  // The run after n frames have been handed over.
  ghost function HandedOver(run: Uds.Run, n: nat): Uds.Run
    decreases n
  {
    if n == 0 then run else HandedOver(Uds.Then(run, Uds.HandOver), n - 1)
  }

  /** What a drained queue leaves behind: a sender that said hello or sent a heartbeat was heard when the last
      of these was handled, the other entries are as they were, and the sessions reported complete are gone. */
  lemma {:induction false} DrainedState(
      lastSeen: map<SenderId, Registry.Time>, recorded: map<SessionId, seq<SenderId>>, frames: seq<Item>, readings: seq<Registry.Time>)
    requires |frames| <= |readings|
    ensures var after := AllHeard(lastSeen, frames, readings);
      && (forall id :: Spoke(frames, id) ==> id in after && LastSpokeAt(frames, readings, id, after[id]))
      && (forall id :: !Spoke(frames, id) ==> (id in after <==> id in lastSeen))
      && (forall id :: !Spoke(frames, id) && id in lastSeen ==> after[id] == lastSeen[id])
    ensures forall s :: s in AllCompleted(recorded, frames) <==> s in recorded && !Reported(frames, s)
    ensures forall s :: s in AllCompleted(recorded, frames) ==> AllCompleted(recorded, frames)[s] == recorded[s]
    decreases |frames|
  {
    if frames != [] {
      var item := frames[0];
      var heard := WholeSystem.Heard(lastSeen, item.0, item.1, readings[0]);
      DrainedState(heard, WholeSystem.Completed(recorded, item.1), frames[1..], readings[1..]);
      assert frames == [item] + frames[1..];
      var after := AllHeard(lastSeen, frames, readings);
      forall id | Spoke(frames, id) ensures id in after && LastSpokeAt(frames, readings, id, after[id]) {
        SpokeLast(frames, readings, id, after);
      }
    }
  }

  // The last frame in which this sender spoke was handled at this reading.
  ghost predicate LastSpokeAt(frames: seq<Item>, readings: seq<Registry.Time>, id: SenderId, at: Registry.Time)
    requires |frames| <= |readings|
  {
    exists i :: 0 <= i < |frames| && Speaks(frames[i], id) && readings[i] == at && !Spoke(frames[i + 1..], id)
  }

  lemma SpokeLast(frames: seq<Item>, readings: seq<Registry.Time>, id: SenderId, after: map<SenderId, Registry.Time>)
    requires frames != [] && |frames| <= |readings| && Spoke(frames, id)
    requires Spoke(frames[1..], id) ==> id in after && LastSpokeAt(frames[1..], readings[1..], id, after[id])
    requires !Spoke(frames[1..], id) && Speaks(frames[0], id) ==> id in after && after[id] == readings[0]
    ensures id in after && LastSpokeAt(frames, readings, id, after[id])
  {
    if Spoke(frames[1..], id) {
      var i :| 0 <= i < |frames[1..]| && Speaks(frames[1..][i], id) && readings[1..][i] == after[id] && !Spoke(frames[1..][i + 1..], id);
      assert frames[1..][i + 1..] == frames[i + 2..];
      assert Speaks(frames[i + 1], id);
    } else {
      SpokeNowOrLater(frames, id);
      assert Speaks(frames[0], id) && !Spoke(frames[0 + 1..], id);
    }
  }

  lemma SpokeNowOrLater(frames: seq<Item>, id: SenderId)
    requires frames != []
    ensures Spoke(frames, id) <==> Speaks(frames[0], id) || Spoke(frames[1..], id)
  {
    assert frames == [frames[0]] + frames[1..];
  }

  predicate Speaks(item: Item, id: SenderId) { item.0 == id && (item.1.SenderHello? || item.1.Heartbeat?) }

  predicate Spoke(frames: seq<Item>, id: SenderId) { exists i :: 0 <= i < |frames| && Speaks(frames[i], id) }

  predicate Reports(item: Item, s: SessionId) { item.1.SessionComplete? && item.1.sessionId == s }

  predicate Reported(frames: seq<Item>, s: SessionId) { exists i :: 0 <= i < |frames| && Reports(frames[i], s) }

  // What the handler of a frame's kind does; the frames that are only logged change nothing.
  method Handle(
      registry: Registry.SenderRegistry, dispatcher: Dispatcher.SessionDispatcher, senderId: SenderId, frame: Frame, now: Registry.Time)
    requires dispatcher.Valid() && dispatcher.registry == registry && registry.clock <= now
    modifies registry, dispatcher`dispatchedSessions
    ensures dispatcher.Valid() && registry.clock <= now
    ensures registry.lastSeen == WholeSystem.Heard(old(registry.lastSeen), senderId, frame, now)
    ensures dispatcher.dispatchedSessions == WholeSystem.Completed(old(dispatcher.dispatchedSessions), frame)
  {
    match frame
    case SenderHello(_, _) => registry.Register(senderId, now);
    case Heartbeat => registry.Refresh(senderId, now);
    case SessionComplete(sessionId) => dispatcher.CompleteSession(sessionId);
    case _ =>
  }

  // One turn of the loop; `alive` tells whether there will be another.
  method HandleNext(
      server: UdsServer.UdsIpcServer, registry: Registry.SenderRegistry, dispatcher: Dispatcher.SessionDispatcher, now: Registry.Time)
    returns (alive: bool)
    requires server.Valid() && server.incoming != []
    requires dispatcher.Valid() && dispatcher.registry == registry && registry.clock <= now
    modifies server`incoming, server`st, server`run, registry, dispatcher`dispatchedSessions
    ensures server.Valid() && server.run == Uds.Then(old(server.run), Uds.HandOver) && server.incoming == old(server.incoming)[1..]
    ensures dispatcher.Valid() && registry.clock <= now
    ensures registry.lastSeen == WholeSystem.Heard(old(registry.lastSeen), old(server.incoming)[0].0, old(server.incoming)[0].1, now)
    ensures dispatcher.dispatchedSessions == WholeSystem.Completed(old(dispatcher.dispatchedSessions), old(server.incoming)[0].1)
    ensures alive <==> old(server.incoming)[0].1 != Undecodable
  {
    hide Uds.Exec, Uds.Legal, Registry.Lazy, Registry.Monotone;
    ghost var queue := server.incoming;
    var item := server.NextIncoming();
    assert server.incoming == queue[1..] && item == queue[0] by { assert queue == [item] + server.incoming; }
    if item.1 == Undecodable { return false; }
    Handle(registry, dispatcher, item.0, item.1, now);
    return true;
  }

  /** The loop until it has to wait or ends: it takes the queued frames in order up to the first that
      cannot be decoded, and no more frames are ever taken after that one. Each turn has its own clock reading. */
  method DrainIncoming(
      server: UdsServer.UdsIpcServer, registry: Registry.SenderRegistry, dispatcher: Dispatcher.SessionDispatcher,
      readings: seq<Registry.Time>)
    returns (alive: bool)
    requires server.Valid() && |server.incoming| <= |readings|
    requires dispatcher.Valid() && dispatcher.registry == registry && Rising(readings, registry.clock)
    modifies server`incoming, server`st, server`run, registry, dispatcher`dispatchedSessions
    ensures server.Valid() && dispatcher.Valid()
    ensures forall i :: |Taken(old(server.incoming))| <= i < |readings| ==> registry.clock <= readings[i]
    ensures var taken := Taken(old(server.incoming));
      && old(server.incoming) == taken + server.incoming
      && server.run == HandedOver(old(server.run), |taken|)
      && registry.lastSeen == AllHeard(old(registry.lastSeen), taken, readings)
      && dispatcher.dispatchedSessions == AllCompleted(old(dispatcher.dispatchedSessions), taken)
      && (alive <==> forall i :: 0 <= i < |taken| ==> taken[i].1 != Undecodable)
  {
    hide *;
    alive := true;
    ghost var queue, taken := server.incoming, Taken(server.incoming);
    ghost var before, rest := [], taken;
    var times := readings;
    NotTurnedYet(queue);
    assert readings[0..] == readings;
    while alive && server.incoming != []
      invariant server.Valid() && dispatcher.Valid() && Rising(times, registry.clock)
      invariant |before| <= |readings| && times == readings[|before|..] && |rest| <= |times| && |server.incoming| <= |times|
      invariant Turned(queue, taken, before, rest, server.incoming, alive)
      invariant HandedOver(server.run, |rest|) == HandedOver(old(server.run), |taken|)
      invariant AllHeard(registry.lastSeen, rest, times) == AllHeard(old(registry.lastSeen), taken, readings)
      invariant AllCompleted(dispatcher.dispatchedSessions, rest) == AllCompleted(old(dispatcher.dispatchedSessions), taken)
      decreases |server.incoming|
    {
      ghost var left := server.incoming;
      OneTurn(server.run, registry.lastSeen, dispatcher.dispatchedSessions, left, times);
      ReadingsRise(times, registry.clock);
      alive := HandleNext(server, registry, dispatcher, times[0]);
      AnotherTurn(queue, taken, before, rest, left);
      RisingFrom(times[1..], times[0], registry.clock);
      before, rest := before + [left[0]], rest[1..];
      times := times[1..];
    }
    AllTurned(queue, taken, before, rest, server.incoming, alive);
    RestRises(readings, |before|, registry.clock);
    NothingTaken(server.run, registry.lastSeen, dispatcher.dispatchedSessions, times);
  }

  lemma ReadingsRise(readings: seq<Registry.Time>, clock: Registry.Time)
    requires readings != [] && Rising(readings, clock)
    ensures clock <= readings[0] && Rising(readings[1..], readings[0])
  {
  }

  lemma RisingFrom(readings: seq<Registry.Time>, later: Registry.Time, clock: Registry.Time)
    requires Rising(readings, later) && clock <= later
    ensures Rising(readings, clock)
  {
  }

  lemma RestRises(readings: seq<Registry.Time>, n: nat, clock: Registry.Time)
    requires n <= |readings| && Rising(readings[n..], clock)
    ensures forall i :: n <= i < |readings| ==> clock <= readings[i]
  {
    forall i | n <= i < |readings| ensures clock <= readings[i] { assert readings[n..][i - n] == readings[i]; }
  }

  // The queue, and the frames to be taken from it, split into those taken so far and the rest.
  ghost predicate Turned(
    queue: seq<Item>, taken: seq<Item>, before: seq<Item>, rest: seq<Item>, left: seq<Item>, alive: bool)
  {
    && taken == Taken(queue) == before + rest && queue == before + left
    && rest == (if alive then Taken(left) else [])
    && (forall i :: 0 <= i < |before| - 1 ==> before[i].1 != Undecodable)
    && (alive <==> before == [] || before[|before| - 1].1 != Undecodable)
  }

  lemma NotTurnedYet(queue: seq<Item>)
    ensures Turned(queue, Taken(queue), [], Taken(queue), queue, true)
  {
  }

  lemma AnotherTurn(
      queue: seq<Item>, taken: seq<Item>, before: seq<Item>, rest: seq<Item>, left: seq<Item>)
    requires Turned(queue, taken, before, rest, left, true) && left != []
    ensures rest == Taken(left) && rest != []
    ensures Turned(queue, taken, before + [left[0]], rest[1..], left[1..], left[0].1 != Undecodable)
  {
    hide Taken;
    TakenStep(left);
    assert before + rest == (before + [left[0]]) + rest[1..];
    assert before + left == (before + [left[0]]) + left[1..];
  }

  lemma TakenStep(queue: seq<Item>)
    requires queue != []
    ensures var taken := Taken(queue);
      taken != [] && taken[0] == queue[0] && taken[1..] == if queue[0].1 == Undecodable then [] else Taken(queue[1..])
  {
  }

  lemma AllTurned(
      queue: seq<Item>, taken: seq<Item>, before: seq<Item>, rest: seq<Item>, left: seq<Item>, alive: bool)
    requires Turned(queue, taken, before, rest, left, alive) && (!alive || left == [])
    ensures rest == [] && taken == before && queue == taken + left
    ensures alive <==> forall i :: 0 <= i < |taken| ==> taken[i].1 != Undecodable
  {
  }

  lemma OneTurn(
      run: Uds.Run, lastSeen: map<SenderId, Registry.Time>, recorded: map<SessionId, seq<SenderId>>, queue: seq<Item>,
      readings: seq<Registry.Time>)
    requires queue != [] && |queue| <= |readings|
    ensures var taken := Taken(queue);
      && taken != [] && |taken| <= |queue|
      && HandedOver(run, |taken|) == HandedOver(Uds.Then(run, Uds.HandOver), |taken[1..]|)
      && AllHeard(lastSeen, taken, readings)
        == AllHeard(WholeSystem.Heard(lastSeen, queue[0].0, queue[0].1, readings[0]), taken[1..], readings[1..])
      && AllCompleted(recorded, taken) == AllCompleted(WholeSystem.Completed(recorded, queue[0].1), taken[1..])
  {
    hide Taken, WholeSystem.Heard, WholeSystem.Completed;
    TakenStep(queue);
  }

  lemma NothingTaken(
      run: Uds.Run, lastSeen: map<SenderId, Registry.Time>, recorded: map<SessionId, seq<SenderId>>, readings: seq<Registry.Time>)
    ensures Taken([]) == [] && HandedOver(run, 0) == run
    ensures AllHeard(lastSeen, [], readings) == lastSeen && AllCompleted(recorded, []) == recorded
  {
  }
}
