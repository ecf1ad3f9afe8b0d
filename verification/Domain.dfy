/** Identifiers and plain data shared by the planner, the dispatcher and the message layer. */
module Domain {
  type SenderId = int
  type SessionId = string
  type BlockId = int

  // What an Ethernet frame leaves for one FEC symbol, and the number of shares GF(2^8) can name.
  const MAX_SYMBOL_BYTES := 1500 - 20 - 8 - 12 - 18
  const GF256_MAX_SHARES := 255

  datatype FecParams = FecParams(k: int, n: int, symbolBytes: int) {
    function BlockSize(): int { k * symbolBytes }

    // What the configuration check establishes before anything is dispatched.
    predicate Validated() {
      0 < k < n <= GF256_MAX_SHARES && 0 < symbolBytes <= MAX_SYMBOL_BYTES
    }
  }

  // A path is its list of components, the root "/" being the first one of an absolute path.
  type Path = seq<string>

  datatype SourceFile = SourceFile(path: Path, sizeBytes: int, fileHash: string)

  // Byte x of a file of this size lies in the range the block covers.
  predicate InBlock(x: int, b: BlockId, size: int, width: int) {
    var start := b * width;
    start <= x < if start + width <= size then start + width else size
  }

  predicate InSomeBlock(x: int, blocks: set<BlockId>, size: int, width: int) {
    exists b :: b in blocks && InBlock(x, b, size, width)
  }

  // The bytes in the ranges of these blocks.
  function BytesOf(blocks: set<BlockId>, size: int, width: int): set<int> {
    set x | 0 <= x < size && InSomeBlock(x, blocks, size, width)
  }

  datatype BlockPlan = BlockPlan(blockId: BlockId, startByte: int, endByte: int)

  datatype ShardAssignment = ShardAssignment(
    senderId: SenderId,
    shardModulus: int,
    shardResidue: int,
    assignedBlocks: seq<BlockId>,
    targetPort: int)
}
