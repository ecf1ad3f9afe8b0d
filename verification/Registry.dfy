/** Which senders are alive: a table of last-heard times whose stale entries are dropped only when the
    table is read. */
module Registry {
  import opened Outcomes
  import opened Domain
  import opened Sorting

  type Time = real

  const MISSED_HEARTBEAT_LIMIT := 3.0

  // One call on the registry with the clock reading it saw. A refresh is a registration.
  datatype Call = Register(id: SenderId, at: Time) | Remove(id: SenderId, at: Time) | Query(at: Time)

  function Fresh(lastSeen: map<SenderId, Time>, now: Time, timeout: Time): map<SenderId, Time> {
    map id | id in lastSeen && now - lastSeen[id] < timeout :: lastSeen[id]
  }

  function Apply(lastSeen: map<SenderId, Time>, call: Call): map<SenderId, Time> {
    match call
    case Register(id, at) => lastSeen[id := at]
    case Remove(id, _) => lastSeen - {id}
    case Query(_) => lastSeen
  }

  // The registry as it is: stale entries go when the senders are asked for.
  function Lazy(calls: seq<Call>, timeout: Time): map<SenderId, Time> {
    if calls == [] then map[] else
      var last := calls[|calls| - 1];
      var before := Lazy(calls[..|calls| - 1], timeout);
      if last.Query? then Fresh(before, last.at, timeout) else Apply(before, last)
  }

  // A registry that drops every stale entry before each call.
  function Eager(calls: seq<Call>, timeout: Time): map<SenderId, Time> {
    if calls == [] then map[] else
      var last := calls[|calls| - 1];
      Apply(Fresh(Eager(calls[..|calls| - 1], timeout), last.at, timeout), last)
  }

  // The time of the last registration of id that no removal follows.
  function LastHeard(calls: seq<Call>, id: SenderId): Option<Time> {
    if calls == [] then None else
      match calls[|calls| - 1]
      case Register(i, at) => if i == id then Some(at) else LastHeard(calls[..|calls| - 1], id)
      case Remove(i, _) => if i == id then None else LastHeard(calls[..|calls| - 1], id)
      case Query(_) => LastHeard(calls[..|calls| - 1], id)
  }

  predicate Alive(calls: seq<Call>, id: SenderId, now: Time, timeout: Time) {
    LastHeard(calls, id).Some? && now - LastHeard(calls, id).value < timeout
  }

  // The clock never goes back, and `now` is no earlier than any call.
  predicate Monotone(calls: seq<Call>, now: Time) {
    calls == [] || (calls[|calls| - 1].at <= now && Monotone(calls[..|calls| - 1], calls[|calls| - 1].at))
  }

  lemma MonotoneExtends(calls: seq<Call>, call: Call)
    requires Monotone(calls, call.at)
    ensures Monotone(calls + [call], call.at)
  {
    assert (calls + [call])[..|calls|] == calls;
  }

  lemma MonotoneLater(calls: seq<Call>, now: Time, later: Time)
    requires Monotone(calls, now) && now <= later
    ensures Monotone(calls, later)
  {
  }

  /** Read at any moment from now on, the lazy and the eager table show the same live senders, those whose
      last registration no removal follows and is younger than the timeout. */
  lemma {:induction false} LazyRefinesEager(calls: seq<Call>, now: Time, timeout: Time)
    requires Monotone(calls, now)
    ensures Fresh(Lazy(calls, timeout), now, timeout) == Fresh(Eager(calls, timeout), now, timeout)
    ensures forall id :: id in Fresh(Lazy(calls, timeout), now, timeout) <==> Alive(calls, id, now, timeout)
  {
    TableHoldsTheLiving(calls, now, timeout);
    var lazy, eager := Lazy(calls, timeout), Eager(calls, timeout);
    forall id ensures id in Fresh(lazy, now, timeout) <==> id in Fresh(eager, now, timeout) {
      assert Recorded(lazy, calls, id, now, timeout) && Recorded(eager, calls, id, now, timeout);
    }
    forall id | id in Fresh(lazy, now, timeout) ensures lazy[id] == eager[id] {
      assert Recorded(lazy, calls, id, now, timeout) && Recorded(eager, calls, id, now, timeout);
    }
    forall id ensures id in Fresh(lazy, now, timeout) <==> Alive(calls, id, now, timeout) {
      assert Recorded(lazy, calls, id, now, timeout);
    }
  }

  // The entry of id, if any, is its last registration, and only an expired one may be missing.
  predicate Recorded(table: map<SenderId, Time>, calls: seq<Call>, id: SenderId, now: Time, timeout: Time) {
    && (id in table ==> LastHeard(calls, id) == Some(table[id]))
    && (id !in table ==> !Alive(calls, id, now, timeout))
  }

  lemma {:induction false} TableHoldsTheLiving(calls: seq<Call>, now: Time, timeout: Time)
    requires Monotone(calls, now)
    ensures forall id :: Recorded(Lazy(calls, timeout), calls, id, now, timeout)
    ensures forall id :: Recorded(Eager(calls, timeout), calls, id, now, timeout)
    decreases |calls|
  {
    if calls != [] {
      var n := |calls| - 1;
      var last, before := calls[n], calls[..n];
      TableHoldsTheLiving(before, last.at, timeout);
      forall id
        ensures Recorded(Lazy(calls, timeout), calls, id, now, timeout)
        ensures Recorded(Eager(calls, timeout), calls, id, now, timeout)
      {
        assert Recorded(Lazy(before, timeout), before, id, last.at, timeout);
        assert Recorded(Eager(before, timeout), before, id, last.at, timeout);
      }
    }
  }

  class SenderRegistry {
    const timeout: Time
    var lastSeen: map<SenderId, Time>
    ghost var calls: seq<Call>
    ghost var clock: Time

    ghost predicate Valid()
      reads this
    {
      Monotone(calls, clock) && lastSeen == Lazy(calls, timeout)
    }

    constructor (heartbeatIntervalSeconds: Time)
      ensures Valid() && calls == [] && clock == 0.0
      ensures timeout == 3.0 * heartbeatIntervalSeconds
    {
      timeout := heartbeatIntervalSeconds * MISSED_HEARTBEAT_LIMIT;
      lastSeen := map[];
      calls := [];
      clock := 0.0;
    }

    method Register(id: SenderId, now: Time)
      requires Valid() && clock <= now
      modifies this
      ensures Valid() && calls == old(calls) + [Call.Register(id, now)] && clock == now
      ensures lastSeen == old(lastSeen)[id := now]
    {
      lastSeen := lastSeen[id := now];
      Note(Call.Register(id, now));
    }

    method Refresh(id: SenderId, now: Time)
      requires Valid() && clock <= now
      modifies this
      ensures Valid() && calls == old(calls) + [Call.Register(id, now)] && clock == now
      ensures lastSeen == old(lastSeen)[id := now]
    {
      Register(id, now);
    }

    // Removing needs no clock reading; `now` only dates the call.
    method Remove(id: SenderId, ghost now: Time)
      requires Valid() && clock <= now
      modifies this
      ensures Valid() && calls == old(calls) + [Call.Remove(id, now)] && clock == now
      ensures lastSeen == old(lastSeen) - {id}
    {
      lastSeen := lastSeen - {id};
      Note(Call.Remove(id, now));
    }

    /** The living senders in increasing order of id. */
    method ActiveSenders(now: Time) returns (active: seq<SenderId>)
      requires Valid() && clock <= now
      modifies this
      ensures Valid() && calls == old(calls) + [Query(now)] && clock == now
      ensures StrictlyIncreasing(active)
      ensures forall id :: id in active <==> Alive(old(calls), id, now, timeout)
      ensures IsSorted(active, lastSeen.Keys)
      ensures lastSeen == Fresh(old(lastSeen), now, timeout)
    {
      PurgeExpired(now);
      Note(Query(now));
      LazyRefinesEager(old(calls), now, timeout);
      active := Sorted(lastSeen.Keys);
      assert forall id :: id in active <==> id in lastSeen;
    }

    method PurgeExpired(now: Time)
      modifies this`lastSeen
      ensures lastSeen == Fresh(old(lastSeen), now, timeout)
    {
      var expired := set id | id in lastSeen && now - lastSeen[id] >= timeout;
      while expired != {}
        invariant forall id :: id in expired ==> id in lastSeen && id in old(lastSeen) && now - old(lastSeen)[id] >= timeout
        invariant lastSeen == map id | id in old(lastSeen) && (now - old(lastSeen)[id] < timeout || id in expired) :: old(lastSeen)[id]
        decreases |expired|
      {
        var id := Any(expired);
        lastSeen := lastSeen - {id};
        expired := expired - {id};
      }
    }

    ghost method Note(call: Call)
      requires Monotone(calls, clock) && clock <= call.at
      requires lastSeen == if call.Query? then Fresh(Lazy(calls, timeout), call.at, timeout) else Apply(Lazy(calls, timeout), call)
      modifies this`calls, this`clock
      ensures Valid() && calls == old(calls) + [call] && clock == call.at
    {
      MonotoneLater(calls, clock, call.at);
      MonotoneExtends(calls, call);
      assert (calls + [call])[..|calls|] == calls;
      calls := calls + [call];
      clock := call.at;
    }
  }
}
