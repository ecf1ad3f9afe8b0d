/** How a file is cut into blocks and the blocks are dealt to the live senders. */
module Planning {
  import opened Outcomes
  import opened Domain
  import opened Sorting
  import opened Binary64

  // Block count

  // math.ceil(file_size / block_size), through binary64. The ceiling of a negative quotient is the
  // floor of its magnitude, negated.
  function CalculateBlockCount(fileSize: int, fec: FecParams): Result<int, ArithmeticError>
    requires fec.BlockSize() > 0
  {
    if fileSize >= 0 then
      match TrueDivide(BINARY64, fileSize, fec.BlockSize())
      case Success(quotient) => Success(Ceil(BINARY64, quotient))
      case Failure(error) => Failure(error)
    else
      match TrueDivide(BINARY64, -fileSize, fec.BlockSize())
      case Success(quotient) => var floor: int := Floor(BINARY64, quotient); Success(-floor)
      case Failure(error) => Failure(error)
  }

  /** Going through floating point gives the integer ceiling for exactly these sizes. */
  lemma {:induction false} BlockCountExactIff(fileSize: nat, fec: FecParams)
    requires fec.BlockSize() > 0
    ensures CalculateBlockCount(fileSize, fec) == Success(CeilDiv(fileSize, fec.BlockSize()))
       <==> CeilsExactly(BINARY64, fileSize, fec.BlockSize())
  {
    hide Pow2, RoundHalfEven, CeilDiv, Bits;
    CeilExactIff(BINARY64, fileSize, fec.BlockSize());
  }

  /** The counted blocks reach the end of the file for exactly these sizes: a count that is too high does. */
  lemma {:induction false} BlockCountReachesIff(fileSize: nat, fec: FecParams)
    requires fec.BlockSize() > 0 && CalculateBlockCount(fileSize, fec).Success?
    ensures fileSize <= CalculateBlockCount(fileSize, fec).value * fec.BlockSize() <==> CeilsHighEnough(BINARY64, fileSize, fec.BlockSize())
  {
    hide Pow2, RoundHalfEven, CeilDiv, Bits, TrueDivide, Ceil;
    CeilHighEnoughIff(BINARY64, fileSize, fec.BlockSize());
    CeilingAtMost(fileSize, fec.BlockSize(), CalculateBlockCount(fileSize, fec).value);
  }

  /** Below 2^53 bytes only an astronomic block size can be miscounted, and then it is. */
  lemma {:induction false} BlockCountBelow53(fileSize: nat, fec: FecParams)
    requires fec.BlockSize() > 0 && fileSize < TWO_TO_THE_53
    ensures CalculateBlockCount(fileSize, fec) == Success(CeilDiv(fileSize, fec.BlockSize()))
       <==> fileSize == 0 || 2 * (fileSize * One(BINARY64)) > fec.BlockSize()
  {
    hide Pow2, RoundHalfEven, CeilDiv, Bits;
    TwoToThe53();
    BlockCountExactIff(fileSize, fec);
    CeilExactBelow(BINARY64, fileSize, fec.BlockSize());
  }

  lemma BlockSizeBounds(fec: FecParams)
    requires fec.Validated()
    ensures 0 < fec.BlockSize() < 0x1_0000_0000
  {
    MulLess(0, fec.k, fec.symbolBytes);
    MulLess(fec.k, 255, fec.symbolBytes);
  }

  /** With a checked configuration the count is exact for every size below 2^53. */
  lemma {:induction false} BlockCountExact(fileSize: nat, fec: FecParams)
    requires fec.Validated() && fileSize < TWO_TO_THE_53
    ensures fec.BlockSize() > 0
    ensures CalculateBlockCount(fileSize, fec) == Success(CeilDiv(fileSize, fec.BlockSize()))
  {
    hide Pow2, RoundHalfEven, CeilDiv, Bits;
    BlockSizeBounds(fec);
    BlockCountBelow53(fileSize, fec);
    if fileSize > 0 {
      assert 0x1_0000_0000 <= One(BINARY64) by { TwoToThe53(); Pow2Monotone(53, BINARY64.unitBits); }
      MulLess(1, fileSize, One(BINARY64));
    }
  }

  /** The limit is real: one byte past 2^53, with blocks of one byte, one block is lost. */
  lemma {:induction false} BlockCountMissesAByte()
    ensures CalculateBlockCount(TWO_TO_THE_53 + 1, FecParams(1, 2, 1)) != Success(CeilDiv(TWO_TO_THE_53 + 1, 1))
  {
    hide RoundHalfEven, Bits, TrueDivide;
    TwoToThe53();
    Pow2Double(53);
    BitsUnique(TWO_TO_THE_53 + 1, 54);
    Pow2Double(0);
    BlockCountExactIff(TWO_TO_THE_53 + 1, FecParams(1, 2, 1));
  }

  /** A negative size of less than 2^53 counts exactly too, rounded towards zero as a ceiling must be. */
  lemma {:induction false} NegativeCount(fileSize: int, fec: FecParams)
    requires fec.BlockSize() > 0 && 0 < -fileSize < TWO_TO_THE_53
    ensures CalculateBlockCount(fileSize, fec).Success?
    ensures CalculateBlockCount(fileSize, fec).value == -((-fileSize) / fec.BlockSize())
  {
    hide RoundHalfEven, Pow2, Bits, TrueDivide, Floor;
    TwoToThe53();
    FloorExactBelow(BINARY64, -fileSize, fec.BlockSize());
  }

  /** A count has the sign of the size, or is 0. */
  lemma {:induction false} CountSign(fileSize: int, fec: FecParams)
    requires fec.BlockSize() > 0 && CalculateBlockCount(fileSize, fec).Success?
    ensures fileSize >= 0 ==> CalculateBlockCount(fileSize, fec).value >= 0
    ensures fileSize <= 0 ==> CalculateBlockCount(fileSize, fec).value <= 0
  {
    hide RoundHalfEven, Pow2, Bits;
    if fileSize == 0 { NothingToRound(BINARY64, fec.BlockSize()); }
  }

  // Byte ranges

  lemma {:induction false} InBlockIff(x: int, b: BlockId, size: int, width: int)
    requires width > 0 && b >= 0
    ensures InBlock(x, b, size, width) <==> 0 <= x < size && b == x / width
  {
    assert b * width >= 0 by { MulLess(0, b, width); }
    if 0 <= x {
      FloorBounds(x, width, b);
      FloorBounds(x, width, b + 1);
      assert (b + 1) * width == b * width + width by { MulGap(b, b + 1, width); SplitProduct(b, 1, 1, width); }
    }
  }

  // The blocks abut, none is empty, and together they run from byte 0 to the end.
  predicate Tiles(plans: seq<BlockPlan>, size: int) {
    if plans == [] then size == 0 else
      && plans[0].startByte == 0 && plans[|plans| - 1].endByte == size
      && (forall i :: 0 <= i < |plans| ==> plans[i].startByte < plans[i].endByte && plans[i].blockId == i)
      && (forall i :: 0 < i < |plans| ==> plans[i].startByte == plans[i - 1].endByte)
  }

  function PlanAt(i: int, size: int, width: int): BlockPlan {
    BlockPlan(i, i * width, if i * width + width <= size then i * width + width else size)
  }

  method ComputeBlockPlans(fileSize: int, fec: FecParams) returns (r: Result<seq<BlockPlan>, ArithmeticError>)
    requires fec.BlockSize() > 0
    ensures r.Failure? <==> CalculateBlockCount(fileSize, fec).Failure?
    ensures r.Success? ==>
      var count := CalculateBlockCount(fileSize, fec).value;
      && |r.value| == (if count < 0 then 0 else count)
      && forall i :: 0 <= i < |r.value| ==> r.value[i] == PlanAt(i, fileSize, fec.BlockSize())
    ensures r.Success? && fileSize >= 0 && CeilsExactly(BINARY64, fileSize, fec.BlockSize()) ==> Tiles(r.value, fileSize)
  {
    hide TrueDivide, Ceil, Floor, CeilDiv, CeilsExactly;
    var count := CalculateBlockCount(fileSize, fec);
    if count.Failure? { return Failure(count.error); }
    var width := fec.BlockSize();
    var plans: seq<BlockPlan> := [];
    var i := 0;
    while i < count.value
      invariant 0 <= i && (i <= count.value || i == 0)
      invariant |plans| == i
      invariant forall j :: 0 <= j < i ==> plans[j] == PlanAt(j, fileSize, width)
    {
      var startByte := i * width;
      var endByte := if startByte + width <= fileSize then startByte + width else fileSize;
      plans := plans + [BlockPlan(i, startByte, endByte)];
      i := i + 1;
    }
    if fileSize >= 0 && CeilsExactly(BINARY64, fileSize, width) {
      BlockCountExactIff(fileSize, fec);
      ExactCountTiles(plans, fileSize, width);
    }
    r := Success(plans);
  }

  lemma {:induction false} ExactCountTiles(plans: seq<BlockPlan>, size: nat, width: int)
    requires width > 0 && |plans| == CeilDiv(size, width)
    requires forall i :: 0 <= i < |plans| ==> plans[i] == PlanAt(i, size, width)
    ensures Tiles(plans, size)
  {
    hide CeilDiv;
    var n := |plans|;
    CeilDivUnique(size, width, n);
    if n > 0 {
      forall i | 0 <= i < n - 1 ensures i * width + width <= n * width - width && (i + 1) * width == i * width + width {
        MulLess(i + 2, n, width);
        MulTwice(i, width);
      }
      MulTwice(n - 1, width);
    }
  }

  lemma MulTwice(i: int, width: int)
    ensures (i + 1) * width == i * width + width && (i + 2) * width == i * width + 2 * width
  {
  }

  // Shards

  // The blocks below `total` whose number leaves this residue, in order.
  function BlocksForShard(total: int, modulus: int, residue: int): seq<BlockId>
    requires modulus > 0
    decreases total
  {
    if total <= 0 then [] else
      BlocksForShard(total - 1, modulus, residue) + (if (total - 1) % modulus == residue then [total - 1] else [])
  }

  lemma {:induction false} ShardMembers(total: int, modulus: int, residue: int, b: BlockId)
    requires modulus > 0
    ensures b in BlocksForShard(total, modulus, residue) <==> 0 <= b < total && b % modulus == residue
    decreases total
  {
    if total > 0 { ShardMembers(total - 1, modulus, residue, b); }
  }

  function ShardSize(total: int, modulus: int, residue: int): int
    requires modulus > 0
  {
    (total + modulus - 1 - residue) / modulus
  }

  /** The shard is the arithmetic progression from its residue, so residue, modulus and length name it. */
  lemma {:induction false} ShardClosedForm(total: nat, modulus: int, residue: int)
    requires 0 <= residue < modulus
    ensures ShardSize(total, modulus, residue) >= 0
    ensures BlocksForShard(total, modulus, residue) == seq(ShardSize(total, modulus, residue), i => residue + i * modulus)
  {
    if total == 0 {
      DivisionUnique(modulus - 1 - residue, modulus, 0, modulus - 1 - residue);
    } else {
      ShardClosedForm(total - 1, modulus, residue);
      ShardSizeStep(total - 1, modulus, residue);
      var n := ShardSize(total - 1, modulus, residue);
      assert seq(n + 1, i => residue + i * modulus) == seq(n, i => residue + i * modulus) + [residue + n * modulus];
    }
  }

  // One more block goes to the shard of its residue, as that shard's next element.
  lemma ShardSizeStep(total: nat, modulus: int, residue: int)
    requires 0 <= residue < modulus
    ensures var n := ShardSize(total, modulus, residue);
      if total % modulus == residue then ShardSize(total + 1, modulus, residue) == n + 1 && total == residue + n * modulus
      else ShardSize(total + 1, modulus, residue) == n
  {
    var q, rest := total / modulus, total % modulus;
    assert total == q * modulus + rest;
    assert (q + 1) * modulus == q * modulus + modulus;
    if rest <= residue {
      DivisionUnique(total + modulus - 1 - residue, modulus, q, rest + modulus - 1 - residue);
    } else {
      DivisionUnique(total + modulus - 1 - residue, modulus, q + 1, rest - 1 - residue);
    }
    if rest < residue {
      DivisionUnique(total + modulus - residue, modulus, q, rest + modulus - residue);
    } else {
      DivisionUnique(total + modulus - residue, modulus, q + 1, rest - residue);
    }
  }

  /** Within a session, shards differ by at most one block, the smaller residues having the longer ones. */
  lemma {:induction false} ShardsBalanced(total: nat, modulus: int, low: int, high: int)
    requires 0 <= low <= high < modulus
    ensures var a, b := |BlocksForShard(total, modulus, low)|, |BlocksForShard(total, modulus, high)|;
      b <= a <= b + 1
  {
    ShardClosedForm(total, modulus, low);
    ShardClosedForm(total, modulus, high);
    ShardSizeByQuotient(total, modulus, low);
    ShardSizeByQuotient(total, modulus, high);
  }

  lemma ShardSizeByQuotient(total: nat, modulus: int, residue: int)
    requires 0 <= residue < modulus
    ensures ShardSize(total, modulus, residue) == total / modulus + (if residue < total % modulus then 1 else 0)
  {
    var q, rest := total / modulus, total % modulus;
    assert total == q * modulus + rest;
    if rest <= residue {
      DivisionUnique(total + modulus - 1 - residue, modulus, q, rest + modulus - 1 - residue);
    } else {
      assert (q + 1) * modulus == q * modulus + modulus;
      DivisionUnique(total + modulus - 1 - residue, modulus, q + 1, rest - 1 - residue);
    }
  }

  // Assignments

  datatype PlanningError =
    | NoActiveSenders
    | DuplicateSenders(ids: set<SenderId>)
    | NegativeTotalBlocks(totalBlocks: int)
    | NonPositiveBasePort(basePort: int)

  // The ids that occur at two positions.
  ghost function Repeated(senders: seq<SenderId>): set<SenderId> {
    set i, j | 0 <= i < j < |senders| && senders[i] == senders[j] :: senders[i]
  }

  // One shard per position in the list of live senders.
  function Deal(totalBlocks: int, senders: seq<SenderId>, basePort: int): seq<ShardAssignment> {
    seq(|senders|, i requires 0 <= i < |senders| =>
      ShardAssignment(senders[i], |senders|, i, BlocksForShard(totalBlocks, |senders|, i), basePort + i))
  }

  ghost function Derived(totalBlocks: int, senders: seq<SenderId>, basePort: int): Result<seq<ShardAssignment>, PlanningError> {
    if senders == [] then Failure(NoActiveSenders)
    else if Repeated(senders) != {} then Failure(DuplicateSenders(Repeated(senders)))
    else if totalBlocks < 0 then Failure(NegativeTotalBlocks(totalBlocks))
    else if basePort <= 0 then Failure(NonPositiveBasePort(basePort))
    else Success(Deal(totalBlocks, senders, basePort))
  }

  predicate Distinct(senders: seq<SenderId>) { forall i, j :: 0 <= i < j < |senders| ==> senders[i] != senders[j] }

  predicate OccursTwice(x: SenderId, senders: seq<SenderId>) { exists i, j :: 0 <= i < j < |senders| && senders[i] == senders[j] == x }

  /** Assignments are derived exactly for a list of distinct senders that is not empty, a count of at least 0 and
      a port of at least 1; the reasons for refusal are looked at in this order. Each position then gets its
      number as residue, the length of the list as modulus, the next port, and every block of its residue. */
  lemma {:induction false} DerivedIff(totalBlocks: int, senders: seq<SenderId>, basePort: int)
    ensures var r := Derived(totalBlocks, senders, basePort);
      && (r.Success? <==> senders != [] && Distinct(senders) && totalBlocks >= 0 && basePort >= 1)
      && (r == Failure(NoActiveSenders) <==> senders == [])
      && (r.Failure? && r.error.DuplicateSenders? <==> senders != [] && !Distinct(senders))
      && (r.Failure? && r.error.DuplicateSenders? ==> forall x :: x in r.error.ids <==> OccursTwice(x, senders))
      && (r == Failure(NegativeTotalBlocks(totalBlocks)) <==> senders != [] && Distinct(senders) && totalBlocks < 0)
      && (r.Success? ==> |r.value| == |senders|)
      && (r.Success? ==> forall i :: 0 <= i < |senders| ==>
           && r.value[i].senderId == senders[i] && r.value[i].shardResidue == i && r.value[i].shardModulus == |senders|
           && r.value[i].targetPort == basePort + i
           && forall b :: b in r.value[i].assignedBlocks <==> 0 <= b < totalBlocks && b % |senders| == i)
  {
    hide BlocksForShard;
    RepeatedIff(senders);
    forall i, b | 0 <= i < |senders|
      ensures b in BlocksForShard(totalBlocks, |senders|, i) <==> 0 <= b < totalBlocks && b % |senders| == i
    {
      ShardMembers(totalBlocks, |senders|, i, b);
    }
  }

  lemma RepeatedIff(senders: seq<SenderId>)
    ensures Repeated(senders) == {} <==> Distinct(senders)
    ensures forall x :: x in Repeated(senders) <==> OccursTwice(x, senders)
  {
    if i, j :| 0 <= i < j < |senders| && senders[i] == senders[j] { assert senders[i] in Repeated(senders); }
  }

  method DeriveShardAssignments(totalBlocks: int, senders: seq<SenderId>, basePort: int)
    returns (r: Result<seq<ShardAssignment>, PlanningError>)
    ensures r == Derived(totalBlocks, senders, basePort)
  {
    if senders == [] { return Failure(NoActiveSenders); }
    var seen: set<SenderId>, duplicates: set<SenderId> := {}, {};
    for n := 0 to |senders|
      invariant seen == set i | 0 <= i < n :: senders[i]
      invariant duplicates == Repeated(senders[..n])
    {
      var id := senders[n];
      RepeatedStep(senders, n);
      if id in seen { duplicates := duplicates + {id}; }
      seen := seen + {id};
    }
    assert senders[..|senders|] == senders;
    if duplicates != {} { return Failure(DuplicateSenders(duplicates)); }
    if totalBlocks < 0 { return Failure(NegativeTotalBlocks(totalBlocks)); }
    if basePort <= 0 { return Failure(NonPositiveBasePort(basePort)); }
    r := Success(Deal(totalBlocks, senders, basePort));
  }

  lemma RepeatedStep(senders: seq<SenderId>, n: nat)
    requires n < |senders|
    ensures Repeated(senders[..n + 1]) ==
      Repeated(senders[..n]) + if senders[n] in (set i | 0 <= i < n :: senders[i]) then {senders[n]} else {}
  {
    var s, t := senders[..n], senders[..n + 1];
    forall x | x in Repeated(t) ensures x in Repeated(s) || (x == senders[n] && senders[n] in (set i | 0 <= i < n :: senders[i])) {
      var i, j :| 0 <= i < j < |t| && t[i] == t[j] && x == t[i];
      if j < n { assert s[i] == s[j]; } else { assert senders[i] == senders[n]; }
    }
    forall x | x in Repeated(s) ensures x in Repeated(t) {
      var i, j :| 0 <= i < j < |s| && s[i] == s[j] && x == s[i];
      assert t[i] == t[j];
    }
    if senders[n] in (set i | 0 <= i < n :: senders[i]) {
      var i :| 0 <= i < n && senders[i] == senders[n];
      assert t[i] == t[n];
    }
  }

  /** Every block has exactly one owner, the sender at position b % modulus. */
  lemma {:induction false} BlockOwner(totalBlocks: int, senders: seq<SenderId>, basePort: int, b: BlockId, i: nat)
    requires i < |senders|
    ensures b in Deal(totalBlocks, senders, basePort)[i].assignedBlocks <==> 0 <= b < totalBlocks && i == b % |senders|
  {
    ShardMembers(totalBlocks, |senders|, i, b);
  }

  /** The residue of a sender is the number of live ids below its own, and its port follows. */
  lemma {:induction false} ResidueIsRank(totalBlocks: int, senders: seq<SenderId>, ids: set<SenderId>, basePort: int, i: nat)
    requires IsSorted(senders, ids) && i < |senders|
    ensures var a := Deal(totalBlocks, senders, basePort)[i];
      && a.senderId in ids && a.shardResidue == Rank(a.senderId, ids)
      && a.targetPort == basePort + Rank(a.senderId, ids) && a.shardModulus == |ids|
  {
    assert senders[i] in senders;
    PositionIsRank(senders, ids, i);
    SortedLength(senders, ids);
  }

  lemma {:induction false} SortedLength(senders: seq<SenderId>, ids: set<SenderId>)
    requires IsSorted(senders, ids)
    ensures |senders| == |ids|
  {
    if senders == [] {
      SortedEmpty(senders, ids);
    } else {
      TailSorted(senders, ids);
      SortedLength(senders[1..], ids - {senders[0]});
      assert senders[0] in senders;
    }
  }

  /** When a live id goes, the modulus drops by one, smaller ids keep residue and port, and larger ids
      move down by exactly one. */
  lemma {:induction false} RemovalShifts(
      totalBlocks: int, totalAfter: int, before: seq<SenderId>, after: seq<SenderId>, ids: set<SenderId>, gone: SenderId, basePort: int,
      i: nat, j: nat)
    requires gone in ids && IsSorted(before, ids) && IsSorted(after, ids - {gone})
    requires i < |before| && j < |after| && before[i] == after[j]
    ensures var was, now := Deal(totalBlocks, before, basePort)[i], Deal(totalAfter, after, basePort)[j];
      && now.shardModulus == was.shardModulus - 1
      && (was.senderId < gone ==> now.shardResidue == was.shardResidue && now.targetPort == was.targetPort)
      && (was.senderId > gone ==> now.shardResidue == was.shardResidue - 1 && now.targetPort == was.targetPort - 1)
  {
    ResidueIsRank(totalBlocks, before, ids, basePort, i);
    ResidueIsRank(totalAfter, after, ids - {gone}, basePort, j);
    RankWithout(before[i], gone, ids);
    assert before[i] in before && after[j] in after;
  }
}
