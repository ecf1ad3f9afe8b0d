/** Dispatching a file: the live senders are fixed once, the file is dealt to them, and each shard is sent
    with a bounded number of tries. Whether a try is accepted is decided by the peers, so the outcome of
    every possible try is a parameter. */
module Dispatcher {
  import opened Outcomes
  import opened Domain
  import opened Sorting
  import opened Wire
  import opened Planning
  import opened Planner
  import opened Sessions
  import Registry
  import Binary64

  const MAX_DISPATCH_ATTEMPTS: nat := 2

  // What the n-th try to send to a sender meets.
  type Peers = (SenderId, nat) -> SendOutcome

  datatype Attempt = Attempt(to: SenderId, payload: AssignSession, outcome: SendOutcome)

  datatype DispatchError = BadCount(cause: ArithmeticError) | BadDeal(reason: PlanningError) | BadManifest(why: PlannerError)

  // The record written when shards are lost: it names them without listing their blocks.
  datatype LostShard = LostShard(senderId: SenderId, shardResidue: int, shardModulus: int, blockCount: nat)
  datatype FailureReport = FailureReport(
    sessionId: SessionId, failedSenders: seq<SenderId>, lostBlockCount: nat, lostShards: seq<LostShard>)

  // Tries

  // Tries go on while the queue is full, up to the limit.
  function Tries(peers: Peers, to: SenderId, payload: AssignSession, n: nat): seq<Attempt>
    decreases MAX_DISPATCH_ATTEMPTS - n
  {
    if n >= MAX_DISPATCH_ATTEMPTS then [] else
      [Attempt(to, payload, peers(to, n))] + if peers(to, n) == QueueFull then Tries(peers, to, payload, n + 1) else []
  }

  function Final(peers: Peers, to: SenderId, n: nat): SendOutcome
    decreases MAX_DISPATCH_ATTEMPTS - n
  {
    if peers(to, n) == QueueFull && n + 1 < MAX_DISPATCH_ATTEMPTS then Final(peers, to, n + 1) else peers(to, n)
  }

  function Flags(peers: Peers, senders: seq<SenderId>): seq<bool> {
    seq(|senders|, i requires 0 <= i < |senders| => Final(peers, senders[i], 0) == Delivered)
  }

  function Disconnected(peers: Peers, senders: seq<SenderId>): set<SenderId> {
    set i | 0 <= i < |senders| && Final(peers, senders[i], 0) == UnknownSender :: senders[i]
  }

  function AllTries(peers: Peers, plan: Plan, n: nat): seq<Attempt>
    requires plan.Valid() && n <= |plan.senders|
  {
    if n == 0 then [] else AllTries(peers, plan, n - 1) + Tries(peers, plan.senders[n - 1], plan.Payload(n - 1), 0)
  }

  lemma AllTriesMore(peers: Peers, plan: Plan, n: nat)
    requires plan.Valid() && n < |plan.senders|
    ensures AllTries(peers, plan, n + 1) == AllTries(peers, plan, n) + Tries(peers, plan.senders[n], plan.Payload(n), 0)
  {
    hide Plan.Valid, Tries;
  }

  // The attempts that put a message in a queue.
  function InQueues(attempts: seq<Attempt>): seq<Attempt> {
    if attempts == [] then [] else
      var n := |attempts| - 1;
      InQueues(attempts[..n]) + if attempts[n].outcome == Delivered then [attempts[n]] else []
  }

  lemma {:induction false} InQueuesConcat(a: seq<Attempt>, b: seq<Attempt>)
    ensures InQueues(a + b) == InQueues(a) + InQueues(b)
  {
    if b == [] {
      assert a + b == a;
    } else {
      var n := |b| - 1;
      InQueuesConcat(a, b[..n]);
      assert (a + b)[..|a + b| - 1] == a + b[..n];
    }
  }

  // All tries of one sender but the last met a full queue, and the last one decides.
  lemma {:induction false} TriesEnd(peers: Peers, to: SenderId, payload: AssignSession, n: nat)
    requires n < MAX_DISPATCH_ATTEMPTS
    ensures InQueues(Tries(peers, to, payload, n)) ==
      if Final(peers, to, n) == Delivered then [Attempt(to, payload, Delivered)] else []
    decreases MAX_DISPATCH_ATTEMPTS - n
  {
    var first := [Attempt(to, payload, peers(to, n))];
    assert InQueues(first) == if peers(to, n) == Delivered then first else [] by { assert first[..0] == []; }
    if peers(to, n) == QueueFull && n + 1 < MAX_DISPATCH_ATTEMPTS {
      TriesEnd(peers, to, payload, n + 1);
      InQueuesConcat(first, Tries(peers, to, payload, n + 1));
    } else {
      assert Tries(peers, to, payload, n) == first;
    }
  }

  /** How a sender is tried: a second time exactly when its queue was full at the first, and never again. */
  lemma {:induction false} TwoTriesAtMost(peers: Peers, to: SenderId, payload: AssignSession)
    ensures var tries := Tries(peers, to, payload, 0);
      && 1 <= |tries| <= 2 && (|tries| == 2 <==> peers(to, 0) == QueueFull)
      && (forall k :: 0 <= k < |tries| ==> tries[k] == Attempt(to, payload, peers(to, k)))
      && Final(peers, to, 0) == tries[|tries| - 1].outcome
  {
    assert Tries(peers, to, payload, 2) == [];
    assert Tries(peers, to, payload, 1) == [Attempt(to, payload, peers(to, 1))];
  }

  lemma {:induction false} TriedAt(peers: Peers, plan: Plan, n: nat, i: nat, a: Attempt)
    requires plan.Valid() && i < n <= |plan.senders| && a in Tries(peers, plan.senders[i], plan.Payload(i), 0)
    ensures a in AllTries(peers, plan, n)
  {
    hide Plan.Valid, Tries;
    if i < n - 1 { TriedAt(peers, plan, n - 1, i, a); }
  }

  lemma {:induction false} TriedBy(peers: Peers, plan: Plan, n: nat, a: Attempt) returns (i: nat)
    requires plan.Valid() && n <= |plan.senders| && a in AllTries(peers, plan, n)
    ensures i < n && a in Tries(peers, plan.senders[i], plan.Payload(i), 0)
  {
    hide Plan.Valid, Tries;
    if a in Tries(peers, plan.senders[n - 1], plan.Payload(n - 1), 0) { i := n - 1; } else { i := TriedBy(peers, plan, n - 1, a); }
  }

  /** The senders that leave the registry are exactly those for which a try found no connection; a full queue
      leaves its sender in. */
  lemma {:induction false} DisconnectedIff(peers: Peers, plan: Plan, id: SenderId)
    requires plan.Valid()
    ensures id in Disconnected(peers, plan.senders) <==>
      exists a :: a in AllTries(peers, plan, |plan.senders|) && a.to == id && a.outcome == UnknownSender
  {
    hide Plan.Valid, Tries, AllTries, Final;
    if id in Disconnected(peers, plan.senders) {
      var i: nat :| i < |plan.senders| && Final(peers, plan.senders[i], 0) == UnknownSender && plan.senders[i] == id;
      TwoTriesAtMost(peers, id, plan.Payload(i));
      var tries := Tries(peers, id, plan.Payload(i), 0);
      TriedAt(peers, plan, |plan.senders|, i, tries[|tries| - 1]);
    }
    if a :| a in AllTries(peers, plan, |plan.senders|) && a.to == id && a.outcome == UnknownSender {
      var i := TriedBy(peers, plan, |plan.senders|, a);
      TwoTriesAtMost(peers, plan.senders[i], plan.Payload(i));
    }
  }

  function Payloads(attempts: seq<Attempt>): seq<AssignSession> {
    seq(|attempts|, i requires 0 <= i < |attempts| => attempts[i].payload)
  }

  function Receivers(attempts: seq<Attempt>): seq<SenderId> {
    seq(|attempts|, i requires 0 <= i < |attempts| => attempts[i].to)
  }

  /** The assignments that reach a queue are, in order, those of the senders counted as reached, each its
      own shard's: no sender has two, and each sender that was not reached has none. */
  lemma {:induction false} QueuedAreAccepted(peers: Peers, plan: Plan, n: nat)
    requires plan.Valid() && n <= |plan.senders|
    ensures var queued := InQueues(AllTries(peers, plan, n)); var delivered := Flags(peers, plan.senders)[..n];
      Payloads(queued) == Accepted(plan, delivered) && Receivers(queued) == Succeeded(plan, delivered)
  {
    hide SourceError, ManifestFields, CalculateBlockCount, Tries, Final, BuildAssignSession, InQueues, Payloads, Receivers;
    if n == 0 {
      NothingQueued();
    } else {
      var before := AllTries(peers, plan, n - 1);
      var tries := Tries(peers, plan.senders[n - 1], plan.Payload(n - 1), 0);
      QueuedAreAccepted(peers, plan, n - 1);
      TriesProject(peers, plan.senders[n - 1], plan.Payload(n - 1));
      InQueuesConcat(before, tries);
      ProjectConcat(InQueues(before), InQueues(tries));
      var flags := Flags(peers, plan.senders);
      assert flags[..n][..n - 1] == flags[..n - 1];
    }
  }

  lemma NothingQueued()
    ensures Payloads(InQueues([])) == [] && Receivers(InQueues([])) == []
  {
  }

  lemma TriesProject(peers: Peers, to: SenderId, payload: AssignSession)
    ensures var queued := InQueues(Tries(peers, to, payload, 0));
      && Payloads(queued) == (if Final(peers, to, 0) == Delivered then [payload] else [])
      && Receivers(queued) == (if Final(peers, to, 0) == Delivered then [to] else [])
  {
    TriesEnd(peers, to, payload, 0);
  }

  lemma ProjectConcat(a: seq<Attempt>, b: seq<Attempt>)
    ensures Payloads(a + b) == Payloads(a) + Payloads(b) && Receivers(a + b) == Receivers(a) + Receivers(b)
  {
  }

  /** Whatever each try meets, the bytes transmitted under the assignments in the queues and the bytes of
      the shards reported lost are pairwise disjoint and make up the file, and so do the block counts. */
  lemma {:induction false} DispatchConserves(peers: Peers, plan: Plan)
    requires plan.Valid() && plan.fec.Validated() && plan.source.sizeBytes < Binary64.TWO_TO_THE_53
    ensures var queued := Payloads(InQueues(AllTries(peers, plan, |plan.senders|)));
      var lost := Lost(plan, Flags(peers, plan.senders));
      && (forall a :: a in queued ==> a.totalSenders == |plan.senders| && BlockWidth(a) > 0)
      && Partition(Pieces(queued, lost, plan.source.sizeBytes, plan.fec.BlockSize()), plan.source.sizeBytes)
      && TransmittedCount(queued) + LostBlockCount(lost) == plan.TotalBlocks()
  {
    hide SourceError, ManifestFields, CalculateBlockCount, Tries, Final, Pieces, Partition, InQueues, AllTries;
    QueuedAreAccepted(peers, plan, |plan.senders|);
    var delivered := Flags(peers, plan.senders);
    assert delivered[..|plan.senders|] == delivered;
    BytesConserved(plan, delivered);
    BlocksConserved(plan, delivered);
    AcceptedAt(plan, delivered);
  }

  lemma {:induction false} SucceededAreSome(plan: Plan, delivered: seq<bool>, id: SenderId)
    requires |delivered| <= |plan.senders|
    ensures id in Succeeded(plan, delivered) <==> exists i :: 0 <= i < |delivered| && delivered[i] && plan.senders[i] == id
  {
    if delivered != [] {
      var n := |delivered| - 1;
      SucceededAreSome(plan, delivered[..n], id);
      if delivered[n] && plan.senders[n] == id { assert delivered[n]; }
      if i: nat :| i < n && delivered[i] && plan.senders[i] == id { assert delivered[..n][i]; }
    }
  }

  // The report

  function Describe(lost: seq<ShardAssignment>): seq<LostShard> {
    seq(|lost|, i requires 0 <= i < |lost| =>
      LostShard(lost[i].senderId, lost[i].shardResidue, lost[i].shardModulus, |lost[i].assignedBlocks|))
  }

  function LogPartialFailure(sessionId: SessionId, lost: seq<ShardAssignment>): FailureReport {
    FailureReport(
      sessionId, seq(|lost|, i requires 0 <= i < |lost| => lost[i].senderId), LostBlockCount(lost), Describe(lost))
  }

  /** The residue, modulus and block count in the report name the lost blocks exactly. */
  lemma {:induction false} ReportNamesTheLostBlocks(plan: Plan, delivered: seq<bool>, j: nat)
    requires plan.Valid() && |delivered| <= |plan.senders| && j < |Lost(plan, delivered)|
    ensures var lost := Lost(plan, delivered)[j]; var named := Describe(Lost(plan, delivered))[j];
      lost.assignedBlocks == seq(named.blockCount, i => named.shardResidue + i * named.shardModulus)
  {
    hide SourceError, CalculateBlockCount;
    LostAt(plan, delivered);
    WherePositions(delivered, false);
    CountNotNegative(plan);
    ShardClosedForm(plan.TotalBlocks(), |plan.senders|, Where(delivered, false)[j]);
  }

  // A report accounts for a dispatch: it names, in order, the positions that were not delivered, each with its
  // sender and so that its blocks can be listed again, and what it counts as lost is what was not transmitted.
  ghost predicate Accounts(report: Option<FailureReport>, attempts: seq<Attempt>, plan: Plan, delivered: seq<bool>) {
    && plan.Valid() && |delivered| == |plan.senders|
    && (report == None <==> forall i :: 0 <= i < |delivered| ==> delivered[i])
    && (report.Some? ==> report.value.sessionId == plan.sessionId && NamesInOrder(report.value, plan, Where(delivered, false)))
    && (forall a :: a in Payloads(InQueues(attempts)) ==> a.totalSenders > 0)
    && TransmittedCount(Payloads(InQueues(attempts))) + (if report.Some? then report.value.lostBlockCount else 0) == plan.TotalBlocks()
  }

  ghost predicate NamesInOrder(report: FailureReport, plan: Plan, positions: seq<nat>)
    requires plan.Valid()
  {
    && |report.failedSenders| == |report.lostShards| == |positions|
    && forall j :: 0 <= j < |positions| ==> positions[j] < |plan.senders| && NamesShard(report.failedSenders[j], report.lostShards[j], plan, positions[j])
  }

  ghost predicate NamesShard(id: SenderId, named: LostShard, plan: Plan, position: nat)
    requires plan.Valid() && position < |plan.senders|
  {
    && id == named.senderId == plan.senders[position]
    && seq(named.blockCount, i => named.shardResidue + i * named.shardModulus) ==
         BlocksForShard(plan.TotalBlocks(), |plan.senders|, position)
  }

  lemma NamedInOrder(plan: Plan, delivered: seq<bool>)
    requires plan.Valid() && |delivered| == |plan.senders|
    ensures NamesInOrder(LogPartialFailure(plan.sessionId, Lost(plan, delivered)), plan, Where(delivered, false))
  {
    hide SourceError, CalculateBlockCount, Plan.Valid, LostBlockCount, Lost, BlocksForShard;
    LostAt(plan, delivered);
    forall j: nat | j < |Lost(plan, delivered)|
      ensures var named := Describe(Lost(plan, delivered))[j];
        Lost(plan, delivered)[j].assignedBlocks == seq(named.blockCount, i => named.shardResidue + i * named.shardModulus)
    {
      ReportNamesTheLostBlocks(plan, delivered, j);
    }
  }

  function ReportOf(plan: Plan, delivered: seq<bool>): Option<FailureReport>
    requires plan.Valid() && |delivered| <= |plan.senders|
  {
    if Lost(plan, delivered) == [] then None else Some(LogPartialFailure(plan.sessionId, Lost(plan, delivered)))
  }

  /** The report of a dispatch accounts for it, whatever every try met: the blocks transmitted under the messages
      in the queues and the lost block count reported are all the blocks of the file. */
  lemma {:induction false} ReportAccounts(peers: Peers, plan: Plan)
    requires plan.Valid()
    ensures Accounts(ReportOf(plan, Flags(peers, plan.senders)), AllTries(peers, plan, |plan.senders|), plan, Flags(peers, plan.senders))
  {
    hide SourceError, CalculateBlockCount, Plan.Valid, Tries, Final, InQueues, AllTries, Payloads, NamesInOrder, Lost, LostBlockCount, TransmittedCount, Flags;
    var delivered := Flags(peers, plan.senders);
    assert |delivered| == |plan.senders| by { FlagsLength(peers, plan.senders); }
    assert delivered[..|plan.senders|] == delivered;
    QueuedAreAccepted(peers, plan, |plan.senders|);
    BlocksConserved(plan, delivered);
    NamedInOrder(plan, delivered);
    LostAt(plan, delivered);
    WherePositions(delivered, false);
    NoneLost();
    NoneWhere(delivered);
  }

  lemma NoneWhere(flags: seq<bool>)
    ensures Where(flags, false) == [] <==> forall i :: 0 <= i < |flags| ==> flags[i]
  {
    WherePositions(flags, false);
    if Where(flags, false) != [] { assert !flags[Where(flags, false)[0]]; }
    if i :| 0 <= i < |flags| && !flags[i] { assert i in Where(flags, false); }
  }

  lemma FlagsLength(peers: Peers, senders: seq<SenderId>)
    ensures |Flags(peers, senders)| == |senders|
    ensures forall i :: 0 <= i < |senders| ==> Flags(peers, senders)[i] == (Final(peers, senders[i], 0) == Delivered)
  {
  }

  lemma NoneLost()
    ensures LostBlockCount([]) == 0
  {
  }

  // The dispatcher

  // Why a session is refused before its first send: the block count, then the deal, then the manifest.
  function Refusal(plan: Plan): Option<DispatchError>
    requires plan.fec.BlockSize() > 0
  {
    match CalculateBlockCount(plan.source.sizeBytes, plan.fec)
    case Failure(error) => Some(BadCount(error))
    case Success(totalBlocks) =>
      if totalBlocks < 0 then Some(BadDeal(NegativeTotalBlocks(totalBlocks))) else
        match SourceError(plan.source, plan.fec, plan.watchRoot)
        case Some(error) => Some(BadManifest(error))
        case None => None
  }

  /** A session is refused for its block count first, then for a negative count, then for its manifest, and
      it is not refused exactly when the file is one the planner accepts. */
  lemma {:induction false} RefusalIff(plan: Plan)
    requires plan.fec.BlockSize() > 0
    ensures var count := CalculateBlockCount(plan.source.sizeBytes, plan.fec); var refusal := Refusal(plan);
      && (refusal == None <==> SourceError(plan.source, plan.fec, plan.watchRoot) == None)
      && (count.Failure? ==> refusal == Some(BadCount(count.error)))
      && (count.Success? && count.value < 0 ==> refusal == Some(BadDeal(NegativeTotalBlocks(count.value))))
      && (count.Success? && count.value >= 0 && refusal.Some? ==>
           refusal.value.BadManifest? && SourceError(plan.source, plan.fec, plan.watchRoot) == Some(refusal.value.why))
  {
    hide CalculateBlockCount, FromHex;
    if CalculateBlockCount(plan.source.sizeBytes, plan.fec).Success? { CountSign(plan.source.sizeBytes, plan.fec); }
  }

  lemma IncreasingHasNoRepeats(s: seq<SenderId>)
    requires StrictlyIncreasing(s)
    ensures Repeated(s) == {}
  {
  }

  class SessionDispatcher {
    const registry: Registry.SenderRegistry
    const fec: FecParams
    const watchRoot: Path
    const targetHost: string
    const basePort: int
    var dispatchedSessions: map<SessionId, seq<SenderId>>

    ghost predicate Valid()
      reads this, registry
    {
      registry.Valid() && fec.Validated() && basePort > 0
    }

    constructor (registry: Registry.SenderRegistry, fec: FecParams, watchRoot: Path, targetHost: string, basePort: int)
      requires registry.Valid() && fec.Validated() && basePort > 0
      ensures Valid() && dispatchedSessions == map[]
      ensures this.registry == registry && this.fec == fec && this.watchRoot == watchRoot
      ensures this.targetHost == targetHost && this.basePort == basePort
    {
      this.registry := registry;
      this.fec := fec;
      this.watchRoot := watchRoot;
      this.targetHost := targetHost;
      this.basePort := basePort;
      dispatchedSessions := map[];
    }

    function PlanOf(sessionId: SessionId, source: SourceFile, senders: seq<SenderId>): Plan {
      Plan(sessionId, source, fec, watchRoot, targetHost, basePort, senders)
    }

    /** One dispatch: nothing happens without live senders; a file that is refused is refused before any
        try; otherwise the session is recorded under the senders that were reached, none if none was. */
    method Dispatch(source: SourceFile, now: Registry.Time, sessionId: SessionId, peers: Peers)
      returns (r: Result<Option<SessionId>, DispatchError>, attempts: seq<Attempt>, report: Option<FailureReport>)
      requires Valid() && registry.clock <= now
      modifies this`dispatchedSessions, registry
      ensures Valid()
      ensures
        var alive := set id | id in old(registry.lastSeen) && Registry.Alive(old(registry.calls), id, now, registry.timeout);
        if alive == {} then
          r == Success(None) && attempts == [] && report == None
          && dispatchedSessions == old(dispatchedSessions) && registry.lastSeen == map[]
        else
          exists senders :: IsSorted(senders, alive) &&
            var plan := PlanOf(sessionId, source, senders);
            if r.Failure? then
              Refusal(plan) == Some(r.error) && attempts == [] && report == None && dispatchedSessions == old(dispatchedSessions)
            else
              var delivered := Flags(peers, senders);
              && Refusal(plan) == None && plan.Valid() && |delivered| == |senders|
              && attempts == AllTries(peers, plan, |senders|)
              && registry.lastSeen.Keys == alive - Disconnected(peers, senders)
              && report == (if Lost(plan, delivered) == [] then None else Some(LogPartialFailure(sessionId, Lost(plan, delivered))))
              && r.value == (if Succeeded(plan, delivered) == [] then None else Some(sessionId))
              && dispatchedSessions == (if r.value == None then old(dispatchedSessions)
                  else old(dispatchedSessions)[sessionId := Succeeded(plan, delivered)])
              && Accounts(report, attempts, plan, delivered)
    {
      hide CalculateBlockCount, SourceError, Registry.Lazy, Registry.Monotone, Accounts;
      var active := registry.ActiveSenders(now);
      ghost var alive := set id | id in old(registry.lastSeen) && Registry.Alive(old(registry.calls), id, now, registry.timeout);
      assert registry.lastSeen.Keys == alive;
      assert IsSorted(active, alive);
      if active == [] {
        SortedEmpty(active, alive);
        assert registry.lastSeen == map[];
        return Success(None), [], None;
      }
      assert active[0] in active;
      ghost var plan := PlanOf(sessionId, source, active);
      var totalBlocks := CalculateBlockCount(source.sizeBytes, fec);
      if totalBlocks.Failure? { return Failure(BadCount(totalBlocks.error)), [], None; }
      var succeeded: Result<Option<seq<SenderId>>, DispatchError>;
      succeeded, attempts, report := SendToSenders(sessionId, source, totalBlocks.value, active, now, peers);
      if succeeded.Failure? { return Failure(succeeded.error), attempts, report; }
      if succeeded.value == None { return Success(None), attempts, report; }
      dispatchedSessions := dispatchedSessions[sessionId := succeeded.value.value];
      return Success(Some(sessionId)), attempts, report;
    }

    method CompleteSession(sessionId: SessionId)
      modifies this`dispatchedSessions
      ensures dispatchedSessions == old(dispatchedSessions) - {sessionId}
    {
      dispatchedSessions := dispatchedSessions - {sessionId};
    }

    method SendToSenders(
        sessionId: SessionId, source: SourceFile, totalBlocks: int, active: seq<SenderId>, ghost now: Registry.Time, peers: Peers)
      returns (r: Result<Option<seq<SenderId>>, DispatchError>, attempts: seq<Attempt>, report: Option<FailureReport>)
      requires Valid() && registry.clock <= now
      requires active != [] && StrictlyIncreasing(active)
      requires CalculateBlockCount(source.sizeBytes, fec) == Success(totalBlocks)
      modifies registry
      ensures Valid() && registry.clock <= now
      ensures var plan := PlanOf(sessionId, source, active);
        if r.Failure? then Refusal(plan) == Some(r.error) && attempts == [] && report == None && unchanged(registry)
        else
          var delivered := Flags(peers, active);
          && Refusal(plan) == None && plan.Valid()
          && attempts == AllTries(peers, plan, |active|)
          && registry.lastSeen == old(registry.lastSeen) - Disconnected(peers, active)
          && report == (if Lost(plan, delivered) == [] then None else Some(LogPartialFailure(sessionId, Lost(plan, delivered))))
          && r.value == (if Succeeded(plan, delivered) == [] then None else Some(Succeeded(plan, delivered)))
          && Accounts(report, attempts, plan, delivered)
    {
      hide CalculateBlockCount, SourceError, Registry.Lazy, Registry.Monotone, Lost, Succeeded, Disconnected, LogPartialFailure,
        BlocksForShard, Accounts, AllTries, Flags, Sent, Plan.Valid;
      ghost var plan := PlanOf(sessionId, source, active);
      BlockSizeBounds(fec);
      IncreasingHasNoRepeats(active);
      var dealt := DeriveShardAssignments(totalBlocks, active, basePort);
      if dealt.Failure? { return Failure(BadDeal(dealt.error)), [], None; }
      var assignments := dealt.value;
      var succeeded: seq<SenderId>, lost: seq<ShardAssignment> := [], [];
      attempts := [];
      var n := 0;
      NothingDecided(peers, plan);
      while n < |assignments|
        invariant n <= |assignments|
        invariant registry.Valid() && registry.clock <= now
        invariant n == 0 ==> succeeded == [] && lost == [] && attempts == [] && unchanged(registry)
        invariant n > 0 ==> Sent(peers, plan, n, succeeded, lost, attempts)
        invariant registry.lastSeen == old(registry.lastSeen) - Disconnected(peers, active[..n])
      {
        var assignment := assignments[n];
        var payload := Encode(sessionId, source, assignment, plan, n);
        if payload.Failure? {
          RefusedAtFirst(peers, plan, n, succeeded, lost, attempts);
          return Failure(BadManifest(payload.error)), attempts, None;
        }
        var delivered, tried := Deliver(assignment.senderId, payload.value, now, peers);
        OneMoreSent(peers, plan, n, succeeded, lost, attempts, delivered);
        attempts := attempts + tried;
        if delivered {
          succeeded := succeeded + [assignment.senderId];
        } else {
          lost := lost + [assignment];
        }
        DisconnectedStep(peers, active, n);
        n := n + 1;
      }
      AllSent(peers, plan, succeeded, lost, attempts);
      assert active[..|active|] == active;
      report := if lost == [] then None else Some(LogPartialFailure(sessionId, lost));
      r := Success(if succeeded == [] then None else Some(succeeded));
    }

    // The message of one shard, or why its manifest is refused.
    method Encode(sessionId: SessionId, source: SourceFile, assignment: ShardAssignment, ghost plan: Plan, ghost n: nat)
      returns (r: Result<AssignSession, PlannerError>)
      requires fec.BlockSize() > 0 && plan == PlanOf(sessionId, source, plan.senders) && n < |plan.senders|
      requires assignment.shardResidue == n && assignment.shardModulus == |plan.senders| && assignment.targetPort == basePort + n
      ensures r.Success? <==> plan.Valid()
      ensures r.Success? ==> r.value == plan.Payload(n)
      ensures r.Failure? ==> SourceError(source, fec, watchRoot) == Some(r.error)
    {
      hide CalculateBlockCount, SourceError, ManifestFields, BuildAssignSession;
      var manifest := BuildManifest(source, fec, sessionId, assignment.shardResidue, assignment.shardModulus, watchRoot);
      if manifest.Failure? { return Failure(manifest.error); }
      return Success(BuildAssignSession(
        manifest.value, assignment.shardModulus, targetHost, assignment.targetPort, AsPosix(source.path)));
    }

    // One shard: at most two tries, a disconnected sender leaving the registry at once.
    method Deliver(to: SenderId, payload: AssignSession, ghost now: Registry.Time, peers: Peers)
      returns (delivered: bool, attempts: seq<Attempt>)
      requires registry.Valid() && registry.clock <= now
      modifies registry
      ensures registry.Valid() && registry.clock <= now
      ensures attempts == Tries(peers, to, payload, 0)
      ensures delivered <==> Final(peers, to, 0) == SendOutcome.Delivered
      ensures registry.lastSeen == old(registry.lastSeen) - if Final(peers, to, 0) == UnknownSender then {to} else {}
    {
      attempts := [];
      var attempt := 0;
      while attempt < MAX_DISPATCH_ATTEMPTS
        invariant attempt <= MAX_DISPATCH_ATTEMPTS && unchanged(registry)
        invariant attempts + Tries(peers, to, payload, attempt) == Tries(peers, to, payload, 0)
        invariant attempt < MAX_DISPATCH_ATTEMPTS ==> Final(peers, to, attempt) == Final(peers, to, 0)
        invariant attempt == MAX_DISPATCH_ATTEMPTS ==> Final(peers, to, 0) == QueueFull
      {
        var outcome := peers(to, attempt);
        attempts := attempts + [Attempt(to, payload, outcome)];
        if outcome == UnknownSender {
          registry.Remove(to, now);
          return false, attempts;
        }
        if outcome == SendOutcome.Delivered { return true, attempts; }
        attempt := attempt + 1;
      }
      return false, attempts;
    }
  }

  // What the loop over shards has after n of them.
  ghost predicate Sent(
    peers: Peers, plan: Plan, n: nat, succeeded: seq<SenderId>, lost: seq<ShardAssignment>, attempts: seq<Attempt>)
  {
    && plan.Valid() && n <= |plan.senders|
    && attempts == AllTries(peers, plan, n)
    && succeeded == Succeeded(plan, Flags(peers, plan.senders)[..n]) && lost == Lost(plan, Flags(peers, plan.senders)[..n])
  }

  lemma RefusedAtFirst(
      peers: Peers, plan: Plan, n: nat, succeeded: seq<SenderId>, lost: seq<ShardAssignment>, attempts: seq<Attempt>)
    requires !plan.Valid() && (n > 0 ==> Sent(peers, plan, n, succeeded, lost, attempts))
    ensures n == 0
  {
  }

  lemma OneMoreSent(
      peers: Peers, plan: Plan, n: nat, succeeded: seq<SenderId>, lost: seq<ShardAssignment>, attempts: seq<Attempt>, delivered: bool)
    requires plan.Valid() && n < |plan.senders| && (delivered <==> Final(peers, plan.senders[n], 0) == Delivered)
    requires if n == 0 then succeeded == [] && lost == [] && attempts == [] else Sent(peers, plan, n, succeeded, lost, attempts)
    ensures Sent(peers, plan, n + 1,
      if delivered then succeeded + [plan.senders[n]] else succeeded, if delivered then lost else lost + [plan.Shards()[n]],
      attempts + Tries(peers, plan.senders[n], plan.Payload(n), 0))
  {
    hide Plan.Valid, Tries, Final, AllTries, Succeeded, Lost, Accepted;
    NothingDecided(peers, plan);
    AllTriesMore(peers, plan, n);
    var flags := Flags(peers, plan.senders);
    assert flags[..n + 1] == flags[..n] + [delivered];
    OneMoreFlag(plan, flags[..n], delivered);
  }

  lemma NotRefused(plan: Plan)
    requires plan.Valid()
    ensures plan.fec.BlockSize() > 0 && Refusal(plan) == None
  {
    hide SourceError, Refusal;
    RefusalIff(plan);
  }

  lemma AllSent(peers: Peers, plan: Plan, succeeded: seq<SenderId>, lost: seq<ShardAssignment>, attempts: seq<Attempt>)
    requires Sent(peers, plan, |plan.senders|, succeeded, lost, attempts)
    ensures var delivered := Flags(peers, plan.senders);
      && plan.Valid() && plan.fec.BlockSize() > 0 && Refusal(plan) == None && |delivered| == |plan.senders|
      && attempts == AllTries(peers, plan, |plan.senders|)
      && succeeded == Succeeded(plan, delivered) && lost == Lost(plan, delivered)
      && Accounts(if lost == [] then None else Some(LogPartialFailure(plan.sessionId, lost)), attempts, plan, delivered)
  {
    hide Plan.Valid, AllTries, Succeeded, Lost, Accounts, LogPartialFailure, Refusal;
    NotRefused(plan);
    var flags := Flags(peers, plan.senders);
    assert flags[..|plan.senders|] == flags;
    ReportAccounts(peers, plan);
  }

  lemma NothingDecided(peers: Peers, plan: Plan)
    ensures Disconnected(peers, []) == {} && Succeeded(plan, []) == []
    ensures plan.Valid() ==> Lost(plan, []) == [] && AllTries(peers, plan, 0) == []
  {
  }

  lemma DisconnectedStep(peers: Peers, senders: seq<SenderId>, n: nat)
    requires n < |senders|
    ensures Disconnected(peers, senders[..n + 1]) ==
      Disconnected(peers, senders[..n]) + if Final(peers, senders[n], 0) == UnknownSender then {senders[n]} else {}
  {
    var s, t := senders[..n], senders[..n + 1];
    forall i | 0 <= i < n ensures s[i] == t[i] { }
    if Final(peers, senders[n], 0) == UnknownSender { assert t[n] == senders[n]; }
  }
}
