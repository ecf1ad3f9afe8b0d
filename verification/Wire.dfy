/** The messages the file monitor exchanges with its senders, as values: encoding to bytes is left to
    the message library, decoding gives one of these frames or fails. */
module Wire {
  import opened Domain

  datatype Manifest = Manifest(
    sessionId: SessionId,
    filepath: string,
    fileSize: int,
    fileHash: seq<int>,
    k: int,
    n: int,
    blockBytes: int,  // the size of a symbol, despite its name
    totalBlocks: int,
    senderId: int,    // the shard residue, not an identity
    senderBpsLimit: int)

  datatype AssignSession = AssignSession(
    manifest: Manifest,
    totalSenders: int,
    targetHost: string,
    targetPort: int,
    sourcePath: string)

  type ProtoHash = seq<int>

  datatype Frame =
    | SenderHello(senderId: SenderId, protoHash: ProtoHash)
    | Heartbeat
    | SenderProgress
    | SessionComplete(sessionId: SessionId)
    | LocalCongestion
    | Unhandled    // a message of the contract that senders have no reason to send
    | Undecodable

  // What an attempt to send to a sender comes to: its queue took the message, there is no connection,
  // or the queue is full.
  datatype SendOutcome = Delivered | UnknownSender | QueueFull

  // What the sender contract makes of an assignment: blocks are k symbols wide, and the sender
  // transmits those whose number leaves its residue modulo the number of senders.

  function BlockWidth(a: AssignSession): int { a.manifest.k * a.manifest.blockBytes }

  predicate Transmits(a: AssignSession, b: BlockId)
    requires a.totalSenders > 0
  {
    0 <= b < a.manifest.totalBlocks && b % a.totalSenders == a.manifest.senderId
  }

  function TransmittedBlocks(a: AssignSession): set<BlockId>
    requires a.totalSenders > 0
  {
    set b | 0 <= b < a.manifest.totalBlocks && Transmits(a, b)
  }

  function TransmittedBytes(a: AssignSession): set<int>
    requires a.totalSenders > 0 && BlockWidth(a) > 0
  {
    BytesOf(TransmittedBlocks(a), a.manifest.fileSize, BlockWidth(a))
  }
}
