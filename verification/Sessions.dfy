/** One session: a file dealt to a fixed list of senders, some of which received their assignment and
    some of which did not. Nothing of the file is assigned twice and nothing vanishes unaccounted for. */
module Sessions {
  import opened Outcomes
  import opened Domain
  import opened Wire
  import opened Planning
  import opened Planner
  import Binary64

  datatype Plan = Plan(
    sessionId: SessionId, source: SourceFile, fec: FecParams, watchRoot: Path, targetHost: string, basePort: int,
    senders: seq<SenderId>)
  {
    predicate Valid() {
      && fec.BlockSize() > 0
      && senders != []
      && SourceError(source, fec, watchRoot).None?
    }

    function TotalBlocks(): int
      requires Valid()
    {
      CalculateBlockCount(source.sizeBytes, fec).value
    }

    function Shards(): (shards: seq<ShardAssignment>)
      requires Valid()
      ensures |shards| == |senders|
    {
      Deal(TotalBlocks(), senders, basePort)
    }

    // The assignment message of the sender at position i.
    function Payload(i: nat): AssignSession
      requires Valid() && i < |senders|
    {
      BuildAssignSession(
        ManifestFields(source, fec, sessionId, i, watchRoot, UNSET_SENDER_BPS_LIMIT),
        |senders|, targetHost, basePort + i, AsPosix(source.path))
    }
  }

  /** What the message of position i says: the file's shape under the names the sender contract gives it, the
      number of senders as modulus, the position as residue and port offset, the host and the path as given. */
  lemma {:induction false} PayloadSays(plan: Plan, i: nat)
    requires plan.Valid() && i < |plan.senders|
    ensures var a := plan.Payload(i); var m := a.manifest;
      && a.totalSenders == |plan.senders| && m.senderId == i
      && a.targetHost == plan.targetHost && a.targetPort == plan.basePort + i && a.sourcePath == AsPosix(plan.source.path)
      && m.k == plan.fec.k && m.n == plan.fec.n && m.blockBytes == plan.fec.symbolBytes && m.totalBlocks == plan.TotalBlocks()
      && m.sessionId == plan.sessionId && m.fileSize == plan.source.sizeBytes && m.senderBpsLimit == 0
      && (plan.fec.Validated() ==> 0 < m.k < m.n <= 255 && 0 < m.blockBytes)
  {
    hide CalculateBlockCount, SourceError, FromHex;
  }

  // The positions that hold this flag, in order.
  function Where(flags: seq<bool>, flag: bool): seq<nat> {
    if flags == [] then [] else
      var n := |flags| - 1;
      Where(flags[..n], flag) + if flags[n] == flag then [n] else []
  }

  // The messages that were accepted and the shards that were lost, `delivered` telling them apart.

  function Accepted(plan: Plan, delivered: seq<bool>): seq<AssignSession>
    requires plan.Valid() && |delivered| <= |plan.senders|
  {
    if delivered == [] then [] else
      var n := |delivered| - 1;
      Accepted(plan, delivered[..n]) + if delivered[n] then [plan.Payload(n)] else []
  }

  function Lost(plan: Plan, delivered: seq<bool>): seq<ShardAssignment>
    requires plan.Valid() && |delivered| <= |plan.senders|
  {
    if delivered == [] then [] else
      var n := |delivered| - 1;
      Lost(plan, delivered[..n]) + if delivered[n] then [] else [plan.Shards()[n]]
  }

  function Succeeded(plan: Plan, delivered: seq<bool>): seq<SenderId>
    requires |delivered| <= |plan.senders|
  {
    if delivered == [] then [] else
      var n := |delivered| - 1;
      Succeeded(plan, delivered[..n]) + if delivered[n] then [plan.senders[n]] else []
  }

  lemma OneMoreFlag(plan: Plan, delivered: seq<bool>, flag: bool)
    requires plan.Valid() && |delivered| < |plan.senders|
    ensures Accepted(plan, delivered + [flag]) == Accepted(plan, delivered) + if flag then [plan.Payload(|delivered|)] else []
    ensures Succeeded(plan, delivered + [flag]) == Succeeded(plan, delivered) + if flag then [plan.senders[|delivered|]] else []
    ensures Lost(plan, delivered + [flag]) == Lost(plan, delivered) + if flag then [] else [plan.Shards()[|delivered|]]
  {
    hide Plan.Valid;
    assert (delivered + [flag])[..|delivered|] == delivered;
  }

  lemma {:induction false} WherePositions(flags: seq<bool>, flag: bool)
    ensures forall j :: 0 <= j < |Where(flags, flag)| ==> Where(flags, flag)[j] < |flags| && flags[Where(flags, flag)[j]] == flag
    ensures forall i, j :: 0 <= i < j < |Where(flags, flag)| ==> Where(flags, flag)[i] < Where(flags, flag)[j]
    ensures forall i :: 0 <= i < |flags| && flags[i] == flag ==> i in Where(flags, flag)
  {
    if flags != [] { WherePositions(flags[..|flags| - 1], flag); }
  }

  lemma {:induction false} AcceptedAt(plan: Plan, delivered: seq<bool>)
    requires plan.Valid() && |delivered| <= |plan.senders|
    ensures |Accepted(plan, delivered)| == |Succeeded(plan, delivered)| == |Where(delivered, true)|
    ensures forall j :: 0 <= j < |Where(delivered, true)| ==> Where(delivered, true)[j] < |plan.senders|
    ensures forall j :: 0 <= j < |Where(delivered, true)| ==> Accepted(plan, delivered)[j] == plan.Payload(Where(delivered, true)[j])
    ensures forall j :: 0 <= j < |Where(delivered, true)| ==> Succeeded(plan, delivered)[j] == plan.senders[Where(delivered, true)[j]]
  {
    hide SourceError;
    if delivered != [] { AcceptedAt(plan, delivered[..|delivered| - 1]); }
  }

  lemma {:induction false} LostAt(plan: Plan, delivered: seq<bool>)
    requires plan.Valid() && |delivered| <= |plan.senders|
    ensures |Lost(plan, delivered)| == |Where(delivered, false)|
    ensures forall j :: 0 <= j < |Where(delivered, false)| ==> Where(delivered, false)[j] < |plan.senders|
    ensures forall j :: 0 <= j < |Where(delivered, false)| ==> Lost(plan, delivered)[j] == plan.Shards()[Where(delivered, false)[j]]
  {
    hide SourceError;
    if delivered != [] { LostAt(plan, delivered[..|delivered| - 1]); }
  }

  // Bytes

  function ShardBytes(shard: ShardAssignment, size: int, width: int): set<int>
    requires width > 0
  {
    BytesOf((set b | b in shard.assignedBlocks), size, width)
  }

  // The bytes each accepted message makes its receiver transmit, then those of each lost shard.
  ghost function Pieces(accepted: seq<AssignSession>, lost: seq<ShardAssignment>, size: int, width: int): seq<set<int>>
    requires width > 0
    requires forall a :: a in accepted ==> a.totalSenders > 0 && BlockWidth(a) > 0
  {
    seq(|accepted|, j requires 0 <= j < |accepted| => assert accepted[j] in accepted; TransmittedBytes(accepted[j]))
    + seq(|lost|, j requires 0 <= j < |lost| => ShardBytes(lost[j], size, width))
  }

  predicate Covered(x: int, pieces: seq<set<int>>) { exists i :: 0 <= i < |pieces| && x in pieces[i] }

  ghost predicate Partition(pieces: seq<set<int>>, size: int) {
    && (forall i, j :: 0 <= i < j < |pieces| ==> pieces[i] !! pieces[j])
    && (forall x :: 0 <= x < size <==> Covered(x, pieces))
  }

  function Owned(plan: Plan, i: int): set<int>
    requires plan.Valid()
  {
    var size, width := plan.source.sizeBytes, plan.fec.BlockSize();
    set x | 0 <= x < size && x / width < plan.TotalBlocks() && (x / width) % |plan.senders| == i
  }

  // The bytes in the ranges of an owner's blocks are those whose block number leaves its residue.
  lemma RangesOfOwner(plan: Plan, i: nat, x: int, b: BlockId)
    requires plan.Valid() && i < |plan.senders| && 0 <= b < plan.TotalBlocks() && b % |plan.senders| == i
    requires InBlock(x, b, plan.source.sizeBytes, plan.fec.BlockSize())
    ensures x in Owned(plan, i)
  {
    hide SourceError, CalculateBlockCount, InBlock;
    InBlockIff(x, b, plan.source.sizeBytes, plan.fec.BlockSize());
  }

  lemma OwnerOfRange(plan: Plan, i: nat, x: int)
    requires plan.Valid() && i < |plan.senders| && x in Owned(plan, i)
    ensures 0 <= x / plan.fec.BlockSize() < plan.TotalBlocks() && (x / plan.fec.BlockSize()) % |plan.senders| == i
    ensures InBlock(x, x / plan.fec.BlockSize(), plan.source.sizeBytes, plan.fec.BlockSize())
  {
    hide SourceError, CalculateBlockCount, InBlock;
    Binary64.FloorBounds(x, plan.fec.BlockSize(), 0);
    InBlockIff(x, x / plan.fec.BlockSize(), plan.source.sizeBytes, plan.fec.BlockSize());
  }

  /** What a sender reads from its message, the ranges of the blocks with its residue, are exactly the bytes
      of its shard's blocks, and those of the positions it owns. */
  lemma {:induction false} PieceIsOwned(plan: Plan, i: nat)
    requires plan.Valid() && i < |plan.senders|
    ensures plan.Payload(i).totalSenders > 0 && BlockWidth(plan.Payload(i)) > 0
    ensures TransmittedBytes(plan.Payload(i)) == Owned(plan, i)
    ensures ShardBytes(plan.Shards()[i], plan.source.sizeBytes, plan.fec.BlockSize()) == Owned(plan, i)
  {
    hide SourceError, CalculateBlockCount, InBlock, Owned;
    var size, width := plan.source.sizeBytes, plan.fec.BlockSize();
    var message, shard := plan.Payload(i), plan.Shards()[i];
    assert BlockWidth(message) == width;
    forall b ensures b in TransmittedBlocks(message) <==> 0 <= b < plan.TotalBlocks() && b % |plan.senders| == i { }
    forall b ensures b in shard.assignedBlocks <==> 0 <= b < plan.TotalBlocks() && b % |plan.senders| == i {
      BlockOwner(plan.TotalBlocks(), plan.senders, plan.basePort, b, i);
    }
    SameBytes(plan, i, TransmittedBlocks(message));
    SameBytes(plan, i, (set b | b in shard.assignedBlocks));
  }

  lemma SameBytes(plan: Plan, i: nat, blocks: set<BlockId>)
    requires plan.Valid() && i < |plan.senders|
    requires forall b :: b in blocks <==> 0 <= b < plan.TotalBlocks() && b % |plan.senders| == i
    ensures BytesOf(blocks, plan.source.sizeBytes, plan.fec.BlockSize()) == Owned(plan, i)
  {
    hide SourceError, CalculateBlockCount, InBlock;
    var size, width := plan.source.sizeBytes, plan.fec.BlockSize();
    forall x | x in BytesOf(blocks, size, width) ensures x in Owned(plan, i) {
      var b :| b in blocks && InBlock(x, b, size, width);
      RangesOfOwner(plan, i, x, b);
    }
    forall x | x in Owned(plan, i) ensures x in BytesOf(blocks, size, width) {
      OwnerOfRange(plan, i, x);
      assert x / width in blocks;
    }
  }

  ghost function Order(delivered: seq<bool>): seq<nat> { Where(delivered, true) + Where(delivered, false) }

  lemma OrderPositions(delivered: seq<bool>)
    ensures forall j :: 0 <= j < |Order(delivered)| ==> Order(delivered)[j] < |delivered|
    ensures forall i, j :: 0 <= i < j < |Order(delivered)| ==> Order(delivered)[i] != Order(delivered)[j]
    ensures forall i :: 0 <= i < |delivered| ==> i in Order(delivered)
  {
    WherePositions(delivered, true);
    WherePositions(delivered, false);
  }

  lemma PiecesInOrder(plan: Plan, delivered: seq<bool>)
    requires plan.Valid() && |delivered| == |plan.senders|
    ensures forall a :: a in Accepted(plan, delivered) ==> a.totalSenders > 0 && BlockWidth(a) > 0
    ensures var pieces := Pieces(Accepted(plan, delivered), Lost(plan, delivered), plan.source.sizeBytes, plan.fec.BlockSize());
      |pieces| == |Order(delivered)|
      && forall j :: 0 <= j < |pieces| ==> Order(delivered)[j] < |plan.senders| && pieces[j] == Owned(plan, Order(delivered)[j])
  {
    hide SourceError, CalculateBlockCount, Owned, TransmittedBytes, ShardBytes;
    AcceptedAt(plan, delivered);
    LostAt(plan, delivered);
    OrderPositions(delivered);
    forall i | 0 <= i < |plan.senders|
      ensures plan.Payload(i).totalSenders > 0 && BlockWidth(plan.Payload(i)) > 0
      ensures TransmittedBytes(plan.Payload(i)) == Owned(plan, i)
      ensures ShardBytes(plan.Shards()[i], plan.source.sizeBytes, plan.fec.BlockSize()) == Owned(plan, i)
    {
      PieceIsOwned(plan, i);
    }
  }

  // The pieces make up the file exactly when the counted blocks reach its end.
  lemma {:induction false} PartitionIffReached(plan: Plan, delivered: seq<bool>)
    requires plan.Valid() && |delivered| == |plan.senders|
    ensures forall a :: a in Accepted(plan, delivered) ==> a.totalSenders > 0 && BlockWidth(a) > 0
    ensures Partition(Pieces(Accepted(plan, delivered), Lost(plan, delivered), plan.source.sizeBytes, plan.fec.BlockSize()), plan.source.sizeBytes)
       <==> plan.source.sizeBytes <= plan.TotalBlocks() * plan.fec.BlockSize()
  {
    hide SourceError, CalculateBlockCount, TransmittedBytes, ShardBytes, Pieces, Owned;
    PiecesInOrder(plan, delivered);
    OrderPositions(delivered);
    OwnersPartitionIff(plan, Order(delivered),
      Pieces(Accepted(plan, delivered), Lost(plan, delivered), plan.source.sizeBytes, plan.fec.BlockSize()));
  }

  /** Whoever received an assignment, the bytes they transmit and the bytes of the lost shards are pairwise
      disjoint and make up the file, exactly for the sizes and block widths whose
      computed block count is not too low. */
  lemma {:induction false} BytesConservedIff(plan: Plan, delivered: seq<bool>)
    requires plan.Valid() && |delivered| == |plan.senders|
    ensures forall a :: a in Accepted(plan, delivered) ==> a.totalSenders > 0 && BlockWidth(a) > 0
    ensures plan.source.sizeBytes >= 0
    ensures var size, width := plan.source.sizeBytes, plan.fec.BlockSize();
      Partition(Pieces(Accepted(plan, delivered), Lost(plan, delivered), size, width), size) <==>
      Binary64.CeilsHighEnough(Binary64.BINARY64, size, width)
  {
    hide FromHex, CalculateBlockCount, Pieces, Partition, Binary64.CeilsHighEnough;
    PartitionIffReached(plan, delivered);
    CountNotNegative(plan);
    BlockCountReachesIff(plan.source.sizeBytes, plan.fec);
  }

  lemma OwnersPartitionIff(plan: Plan, order: seq<nat>, pieces: seq<set<int>>)
    requires plan.Valid() && |pieces| == |order|
    requires forall j :: 0 <= j < |order| ==> order[j] < |plan.senders| && pieces[j] == Owned(plan, order[j])
    requires forall i, j :: 0 <= i < j < |order| ==> order[i] != order[j]
    requires forall i :: 0 <= i < |plan.senders| ==> i in order
    ensures Partition(pieces, plan.source.sizeBytes) <==> plan.source.sizeBytes <= plan.TotalBlocks() * plan.fec.BlockSize()
  {
    hide SourceError, CalculateBlockCount;
    var size, width, total := plan.source.sizeBytes, plan.fec.BlockSize(), plan.TotalBlocks();
    forall x ensures Covered(x, pieces) <==> 0 <= x < size && x / width < total {
      if 0 <= x < size && x / width < total { OwnerCovers(plan, order, pieces, x); }
    }
    forall i, j | 0 <= i < j < |pieces| ensures pieces[i] !! pieces[j] { OwnedDisjoint(plan, order[i], order[j]); }
    if size <= total * width {
      forall x | 0 <= x < size ensures x / width < total { Reaches(x, width, total, size); }
    } else {
      Falls(size, width, total, plan);
      assert !Covered(size - 1, pieces);
    }
  }

  lemma OwnerCovers(plan: Plan, order: seq<nat>, pieces: seq<set<int>>, x: nat)
    requires plan.Valid() && |pieces| == |order|
    requires forall j :: 0 <= j < |order| ==> order[j] < |plan.senders| && pieces[j] == Owned(plan, order[j])
    requires forall i :: 0 <= i < |plan.senders| ==> i in order
    requires x < plan.source.sizeBytes && x / plan.fec.BlockSize() < plan.TotalBlocks()
    ensures Covered(x, pieces)
  {
    hide SourceError, CalculateBlockCount;
    var owner := (x / plan.fec.BlockSize()) % |plan.senders|;
    assert owner in order;
    var j :| 0 <= j < |order| && order[j] == owner;
    assert x in pieces[j];
  }

  lemma OwnedDisjoint(plan: Plan, i: nat, j: nat)
    requires plan.Valid() && i != j
    ensures Owned(plan, i) !! Owned(plan, j)
  {
    hide SourceError, CalculateBlockCount;
  }

  lemma Reaches(x: nat, width: int, total: int, size: int)
    requires width > 0 && x < size <= total * width
    ensures x / width < total
  {
    assert total > 0 by { if total <= 0 { Binary64.MulLess(total, 0, width); } }
    Binary64.FloorBounds(x, width, total);
  }

  lemma Falls(size: int, width: int, total: int, plan: Plan)
    requires plan.Valid() && size == plan.source.sizeBytes && width == plan.fec.BlockSize() && total == plan.TotalBlocks()
    requires total * width < size
    ensures 0 <= size - 1 && total <= (size - 1) / width
  {
    hide CalculateBlockCount;
    assert size >= 0 && total >= 0 by { CountNotNegative(plan); }
    Binary64.MulLess(-1, total, width);
    assert total * width >= 0;
    Binary64.FloorBounds(size - 1, width, total);
  }

  lemma CountNotNegative(plan: Plan)
    requires plan.Valid()
    ensures plan.source.sizeBytes >= 0 && plan.TotalBlocks() >= 0
  {
    hide Binary64.TrueDivide, FromHex;
  }

  /** With a checked configuration every file below 2^53 bytes is conserved, whatever the outcome of each send. */
  lemma {:induction false} BytesConserved(plan: Plan, delivered: seq<bool>)
    requires plan.Valid() && |delivered| == |plan.senders|
    requires plan.fec.Validated() && plan.source.sizeBytes < Binary64.TWO_TO_THE_53
    ensures forall a :: a in Accepted(plan, delivered) ==> a.totalSenders > 0 && BlockWidth(a) > 0
    ensures Partition(Pieces(Accepted(plan, delivered), Lost(plan, delivered), plan.source.sizeBytes, plan.fec.BlockSize()), plan.source.sizeBytes)
  {
    hide FromHex, CalculateBlockCount, Pieces, Partition;
    PartitionIffReached(plan, delivered);
    CountNotNegative(plan);
    BlockCountExact(plan.source.sizeBytes, plan.fec);
    Binary64.CeilDivUnique(plan.source.sizeBytes, plan.fec.BlockSize(), plan.TotalBlocks());
  }

  // Block counts

  function LostBlockCount(lost: seq<ShardAssignment>): nat {
    if lost == [] then 0 else LostBlockCount(lost[..|lost| - 1]) + |lost[|lost| - 1].assignedBlocks|
  }

  function TransmittedCount(accepted: seq<AssignSession>): nat
    requires forall a :: a in accepted ==> a.totalSenders > 0
  {
    if accepted == [] then 0 else
      TransmittedCount(accepted[..|accepted| - 1]) + |TransmittedBlocks(accepted[|accepted| - 1])|
  }

  // Blocks of the first n residues.
  function Dealt(total: int, modulus: int, n: nat): nat
    requires modulus > 0
  {
    if n == 0 then 0 else Dealt(total, modulus, n - 1) + |BlocksForShard(total, modulus, n - 1)|
  }

  lemma {:induction false} DealtStep(total: nat, modulus: int, n: nat)
    requires modulus > 0
    ensures Dealt(total + 1, modulus, n) == Dealt(total, modulus, n) + if total % modulus < n then 1 else 0
  {
    if n > 0 { DealtStep(total, modulus, n - 1); }
  }

  lemma {:induction false} DealtNothing(modulus: int, n: nat)
    requires modulus > 0
    ensures Dealt(0, modulus, n) == 0
  {
    if n > 0 { DealtNothing(modulus, n - 1); }
  }

  lemma {:induction false} DealtAll(total: nat, modulus: int)
    requires modulus > 0
    ensures Dealt(total, modulus, modulus) == total
  {
    if total == 0 {
      DealtNothing(modulus, modulus);
    } else {
      DealtAll(total - 1, modulus);
      DealtStep(total - 1, modulus, modulus);
    }
  }

  // A shard's list has no repetitions, so it has as many members as its set.
  lemma {:induction false} ShardSet(total: nat, modulus: int, residue: int)
    requires modulus > 0
    ensures |set b | 0 <= b < total && b % modulus == residue| == |BlocksForShard(total, modulus, residue)|
  {
    var all := set b | 0 <= b < total && b % modulus == residue;
    if total == 0 {
      assert all == {};
    } else {
      ShardSet(total - 1, modulus, residue);
      var fewer := set b | 0 <= b < total - 1 && b % modulus == residue;
      assert all == fewer + if (total - 1) % modulus == residue then {total - 1} else {};
    }
  }

  lemma PayloadBlocks(plan: Plan, i: nat)
    requires plan.Valid() && i < |plan.senders|
    ensures plan.Payload(i).totalSenders > 0
    ensures |TransmittedBlocks(plan.Payload(i))| == |BlocksForShard(plan.TotalBlocks(), |plan.senders|, i)|
    ensures |plan.Shards()[i].assignedBlocks| == |BlocksForShard(plan.TotalBlocks(), |plan.senders|, i)|
  {
    hide FromHex, CalculateBlockCount;
    CountNotNegative(plan);
    ShardSet(plan.TotalBlocks(), |plan.senders|, i);
    assert TransmittedBlocks(plan.Payload(i)) == set b | 0 <= b < plan.TotalBlocks() && b % |plan.senders| == i;
  }

  lemma {:induction false} CountsSplit(plan: Plan, delivered: seq<bool>)
    requires plan.Valid() && |delivered| <= |plan.senders|
    ensures forall a :: a in Accepted(plan, delivered) ==> a.totalSenders > 0
    ensures TransmittedCount(Accepted(plan, delivered)) + LostBlockCount(Lost(plan, delivered))
      == Dealt(plan.TotalBlocks(), |plan.senders|, |delivered|)
  {
    hide SourceError, CalculateBlockCount, ManifestFields, TransmittedBlocks, BlocksForShard, Deal, TransmittedCount, LostBlockCount;
    NothingCounted();
    if delivered != [] {
      var n := |delivered| - 1;
      CountsSplit(plan, delivered[..n]);
      PayloadBlocks(plan, n);
      if delivered[n] {
        assert Lost(plan, delivered) == Lost(plan, delivered[..n]);
        OneMoreAccepted(Accepted(plan, delivered[..n]), plan.Payload(n));
      } else {
        assert Accepted(plan, delivered) == Accepted(plan, delivered[..n]);
        OneMoreLost(Lost(plan, delivered[..n]), plan.Shards()[n]);
      }
    }
  }

  lemma NothingCounted()
    ensures TransmittedCount([]) == 0 && LostBlockCount([]) == 0
  {
  }

  lemma OneMoreAccepted(accepted: seq<AssignSession>, a: AssignSession)
    requires a.totalSenders > 0 && forall b :: b in accepted ==> b.totalSenders > 0
    ensures TransmittedCount(accepted + [a]) == TransmittedCount(accepted) + |TransmittedBlocks(a)|
  {
    assert (accepted + [a])[..|accepted|] == accepted;
  }

  lemma OneMoreLost(lost: seq<ShardAssignment>, shard: ShardAssignment)
    ensures LostBlockCount(lost + [shard]) == LostBlockCount(lost) + |shard.assignedBlocks|
  {
    assert (lost + [shard])[..|lost|] == lost;
  }

  /** The blocks delivered and the lost block count that is reported add up to all the blocks. */
  lemma {:induction false} BlocksConserved(plan: Plan, delivered: seq<bool>)
    requires plan.Valid() && |delivered| == |plan.senders|
    ensures forall a :: a in Accepted(plan, delivered) ==> a.totalSenders > 0
    ensures TransmittedCount(Accepted(plan, delivered)) + LostBlockCount(Lost(plan, delivered)) == plan.TotalBlocks()
  {
    hide FromHex, CalculateBlockCount;
    CountsSplit(plan, delivered);
    CountNotNegative(plan);
    DealtAll(plan.TotalBlocks(), |plan.senders|);
  }
}
