# File monitor: a verified model

The file monitor watches a directory, waits until a file is stable, cuts it into blocks, deals the blocks to
the sender processes that are alive, and hands every sender its assignment over a local socket. It also starts
the sender processes, restarts them with backoff, and stops them. All of this runs on one event loop, so an
atomic step is the code between two `await`s. The project models five parts and proves properties of every run
of each, where a run is any interleaving of such steps with steps of the outside world: a datagram arrives, a
write fails, a peer reconnects, a process dies, time passes.

| part | step system or functions | theorems over runs | the code's own objects |
|---|---|---|---|
| socket server | `Uds.dfy` | `Uds.dfy`, `ServerHistories.dfy` | `UdsServer.dfy` |
| shard arithmetic | `Binary64.dfy`, `Planning.dfy` | `Planning.dfy`, `Sessions.dfy` | methods in `Planning.dfy` |
| registry, planner, dispatcher | `Registry.dfy`, `Planner.dfy`, `Dispatcher.dfy` | `Dispatcher.dfy` | classes in the same files |
| server, registry and dispatcher together | `WholeSystem.dfy` | `WholeSystem.dfy`, `SystemHistories.dfy`, `SystemSteps.dfy` | `IncomingLoop.dfy` |
| supervisor | `Supervisor.dfy` | `Restarts.dfy`, `ShutdownSafety.dfy`, `ShutdownCourse.dfy` | `ProcessSupervisor.dfy` |
| watcher | `Debounce.dfy` | `Debounce.dfy` | `DirectoryWatcher.dfy` |

`Outcomes.dfy`, `Domain.dfy`, `Wire.dfy` and `Sorting.dfy` hold the shared data types and the sorted list of a
set of ids. A run is a value (`Start`, then `Then(before, step)`), `Exec` gives its state, and `Legal` says
that each step was possible when it was taken. The classes have the fields of the source's classes. Each public
method of the server, the supervisor and the watcher is one atomic segment, and its contract says that it
extends the ghost run by exactly one step, so that every theorem over runs applies to the objects. Where the
source compares references (is the entry still this queue, is the table's timer this one), the classes compare
references too. The registry's methods extend a ghost list of calls, and the dispatcher's are specified by
functions of the outcome of each try.

`dafny verify dfyconfig.toml` verifies the project.

## What was found

- **Block count.** `math.ceil(file_size / block_size)` goes through binary64. It is the exact ceiling for every
  size below 2^53 under a checked configuration, and wrong at 2^53 + 1 with blocks of one byte.
  `Planning.BlockCountExactIff` and `Binary64.CeilExactIff` give the exact condition for all sizes; it also
  covers quotients too small for binary64, which count zero blocks. `docs/SENDER_CONTRACT.md` gives the number as
  `ceil(file_size / (k * block_bytes))` without that limit; the model follows the code.
- **File hash.** A hash of 64 characters need not be 32 bytes: `bytes.fromhex` skips white space
  (`Planner.AcceptedHashLength` says exactly when it is 32, and `Planner.BlankHashAccepted` gives 64 blanks that
  are accepted as no bytes). The dispatcher's hash is always a `hexdigest()`
  (`src/file_monitor/services/dispatcher.py:42`, `src/file_monitor/adapters/blake3_hasher.py:19`), so only a direct
  caller of `build_manifest` can supply such text.
- **Incoming loop.** Nothing guards the call of the decoder at `src/file_monitor/main.py:93`. The loop lives exactly
  as long as every frame could be decoded (`SystemHistories.LoopLivesIff`), and without it the registry only
  shrinks (`SystemHistories.DeadLoopStarves`). The exception also leaves the task group at
  `src/file_monitor/main.py:174-193`, so the other workers are cancelled and the program ends with exit code 1.
- **Shutdown.** Every continuation of `shutdown` ends with nothing alive if and only if, when it is entered, every
  live process is in the table and no spawn call can still create one (`ShutdownSafety.NothingSurvivesIff`);
  `ShutdownSafety.PendingSpawnOutlivesShutdown` is an example of the contrary. At the program's own exit the
  children's tasks have been cancelled first (`src/file_monitor/main.py:111-117`) and `shutdown` follows
  (`src/file_monitor/main.py:195`), so no spawn is pending then and `ShutdownSafety.NoPendingSpawnNoSurvivor`
  applies, unless a cancellation hit a spawn call that had already made its process. A second call of `shutdown`
  returns at once, whatever the first is waiting for.
- **Debouncer.** The identity check of a waking timer never fails (`Debounce.WakeIsAllowed`): cancelling the
  superseded timer already suffices.
- **Crash loops.** The supervisor reads the first entry of a deque of `crash_loop_max_restarts` entries and the
  last entry of the backoff schedule. With a limit of 0 or an empty schedule either would raise; the model asks
  for a limit of at least 1 and a schedule that is not empty, as the defaults have.

## Model

| member | source | states |
|---|---|---|
| Binary64.TrueDivideIsNearest | src/file_monitor/domain/planning.py:13-14 | the modelled binary64 quotient is at least as near to the exact one as any representable number, and on a tie it is the one whose last digit is even |
| Binary64.CeilExactIff | src/file_monitor/domain/planning.py:13-14 | for every dividend and divisor the ceiling of the rounded quotient is the integer ceiling if and only if a condition on the operands holds: a ceiling of more than 53 digits must itself be representable, a fraction beside a whole part must survive rounding, and a quotient below one must not round to zero |
| Binary64.CeilHighEnoughIff | src/file_monitor/domain/planning.py:13-14 | for every finite quotient the computed ceiling is at least the integer one if and only if a condition on the operands holds: a quotient of more than 53 digits is rounded upwards or not at all, any other is exact |
| Binary64.CeilExactBelow | src/file_monitor/domain/planning.py:13-14 | below 2^53 only a quotient that underflows can be miscounted, and then it is |
| Planning.BlockCountExactIff | src/file_monitor/domain/planning.py:13-14 | the block count is the integer ceiling exactly for the sizes that meet that condition |
| Planning.BlockCountReachesIff | src/file_monitor/domain/planning.py:13-14 | the counted blocks reach the end of the file exactly for the sizes and block widths that meet that condition, which is wider than exactness: a count that is too high reaches it too |
| Planning.BlockCountBelow53 | src/file_monitor/domain/planning.py:13-14 | for sizes below 2^53 and every positive block size: exact if and only if the file is empty or the quotient does not underflow |
| Planning.BlockCountExact | src/file_monitor/domain/planning.py:13-14 | with a checked configuration the count is the integer ceiling for every size below 2^53 |
| Planning.BlockCountMissesAByte | src/file_monitor/domain/planning.py:13-14 | the limit is real: 2^53 + 1 bytes in blocks of one byte lose a block |
| Binary64.FloorExactBelow | src/file_monitor/domain/planning.py:13-14 | for a dividend below 2^53 the floor of the rounded quotient is the integer quotient, whatever the divisor |
| Planning.NegativeCount | src/file_monitor/domain/planning.py:13-14 | a negative size above -2^53 counts exactly too, its quotient rounded towards zero as a ceiling must be |
| Planning.CountSign | src/file_monitor/domain/planning.py:13-14 | a count has the sign of the size, or is 0 |
| Planning.ComputeBlockPlans | src/file_monitor/domain/planning.py:17-25 | the plans are as many as the count, and when the count is exact they abut, none is empty, and they run from byte 0 to the end of the file |
| Planning.ExactCountTiles | src/file_monitor/domain/planning.py:20-25 | that many ranges of the block width, the last one cut off, tile the file |
| Planning.InBlockIff | src/file_monitor/domain/planning.py:22-23 | a byte lies in the range of a block exactly when its offset divided by the block width is the block's number |
| Planning.ShardMembers | src/file_monitor/domain/planning.py:28-29 | a block is in a shard exactly when it is below the total and leaves the shard's residue |
| Planning.ShardClosedForm | src/file_monitor/domain/planning.py:28-29 | a shard is the arithmetic progression r, r + m, ... of (T + m - 1 - r) / m terms, so residue, modulus and length name its blocks |
| Planning.ShardsBalanced | src/file_monitor/domain/planning.py:28-29 | shards of a session differ by at most one block, smaller residues having the longer ones |
| Planning.DeriveShardAssignments | src/file_monitor/domain/planning.py:32-65 | refuses an empty list, then repeated ids (naming exactly those that occur twice), then a negative count, then a port below 1; otherwise deals one shard per position |
| Planning.DerivedIff | src/file_monitor/domain/planning.py:32-65 | derivation succeeds exactly for distinct senders, at least one, a count of at least 0 and a port of at least 1, the reasons for refusal in this order; each position gets its number as residue, the list's length as modulus, the next port and every block of its residue |
| Planning.BlockOwner | src/file_monitor/domain/planning.py:55-65 | every block has exactly one owner, the sender at position b mod m |
| Planning.ResidueIsRank | src/file_monitor/domain/planning.py:55-65 | a sender's residue is the number of live ids below its own, its port follows, and the modulus is the number of live ids |
| Planning.RemovalShifts | src/file_monitor/domain/planning.py:55-65 | when a live id goes, the modulus drops by one, smaller ids keep residue and port, and larger ids move down by exactly one |
| Sorting.Sorted | src/file_monitor/services/registry.py:23 | the result is strictly increasing and has exactly the members of the set |
| Sorting.SortedUnique | src/file_monitor/services/registry.py:23 | there is only one such list |
| Sorting.SortedExists | src/file_monitor/services/registry.py:23 | every set has such a list |
| Registry.LazyRefinesEager | src/file_monitor/services/registry.py:12-33 | for every sequence of calls under a monotone clock, a registry that purges only when read and one that purges before every call show the same senders: those whose last registration no removal follows and is younger than the timeout |
| Registry.TableHoldsTheLiving | src/file_monitor/services/registry.py:12-33 | in both, an entry is the id's last registration, and only an expired one may be missing |
| Registry.SenderRegistry.constructor | src/file_monitor/services/registry.py:7-10 | empty, with a timeout of three heartbeat intervals |
| Registry.SenderRegistry.Register | src/file_monitor/services/registry.py:12-13 | the id is recorded at this reading and every other entry is kept |
| Registry.SenderRegistry.Refresh | src/file_monitor/services/registry.py:15-16 | the same as a registration |
| Registry.SenderRegistry.Remove | src/file_monitor/services/registry.py:18-19 | the id is gone, known or not, and every other entry is kept |
| Registry.SenderRegistry.ActiveSenders | src/file_monitor/services/registry.py:21-23 | the strictly increasing list of exactly the living ids of the whole call history |
| Registry.SenderRegistry.PurgeExpired | src/file_monitor/services/registry.py:25-33 | the loop leaves exactly the entries younger than the timeout |
| Planner.HexLength | src/file_monitor/services/planner.py:53-58 | white space is skipped, so the bytes are at most half the characters, and exactly half if and only if there is none |
| Planner.HexRoundTrip | src/file_monitor/services/planner.py:53-58 | reading the hexadecimal text of bytes, in lower or upper case, gives the bytes back |
| Planner.HexRefuses | src/file_monitor/services/planner.py:53-58 | a character that is neither a hexadecimal digit nor white space is never accepted |
| Planner.AcceptedHashLength | src/file_monitor/services/planner.py:48-58 | the hash in a manifest that was built is at most 32 bytes, and 32 if and only if it holds no white space |
| Planner.BlankHashAccepted | src/file_monitor/services/planner.py:48-58 | a witness: a hash of 64 blanks passes every check and becomes no bytes at all |
| Planner.ApplyShard | src/file_monitor/services/planner.py:25-33 | sets the residue and nothing else, or reports a bad modulus or index and changes nothing |
| Planner.BuildManifest | src/file_monitor/services/planner.py:36-89 | the checks in their order, the first failing one deciding the error; on success k, n, symbol size, file size, session, residue, rate limit and block count are those given, each under its own name |
| Planner.BuiltFields | src/file_monitor/services/planner.py:75-89 | the same of the specification, and the hash as bytes when it was given as their hexadecimal text |
| Planner.AcceptedIff | src/file_monitor/services/planner.py:45-73 | a file is accepted if and only if its size is at least 0, its hash has 64 characters that read as hexadecimal, its path lies below the watched directory without climbing out, and its blocks can be counted |
| Planner.OrdinaryFileAccepted | src/file_monitor/services/planner.py:45-88 | with a checked configuration every file below 2^53 bytes in the watched directory, with the text of a 32-byte hash, is accepted for every shard |
| Planner.FirstErrorDecides | src/file_monitor/services/planner.py:45-67 | which error a refused file gets: exactly that of the first check it fails |
| Planner.AcceptedPathStaysInside | src/file_monitor/services/planner.py:60-73 | split at its separators, the file name of an accepted manifest gives back the file's components below the watched directory: never absolute, never empty, no component climbing out |
| Planner.JoinedSplits | src/file_monitor/services/planner.py:73 | joining components with separators and splitting again is the identity |
| Planner.AbsolutePathText | src/file_monitor/services/dispatcher.py:90-96 | the text of an absolute path begins with a separator and splits back into its components |
| Planner.AllOrNothing | src/file_monitor/services/dispatcher.py:81-96 | the shards of a session are refused together and for the same reason, or accepted together, and then their manifests differ in nothing but the residue |
| Sessions.AcceptedAt | src/file_monitor/services/dispatcher.py:81-109 | the messages accepted and the senders reached are, in order, those of the positions that were delivered |
| Sessions.LostAt | src/file_monitor/services/dispatcher.py:110-111 | the lost assignments are, in order, those of the positions that were not |
| Sessions.PayloadSays | src/file_monitor/services/dispatcher.py:82-96 | what the message of position i says: the file's shape under the contract's names, the number of senders as modulus, i as residue and port offset, host and path as given; 0 < k < n <= 255 with a checked configuration |
| Sessions.PieceIsOwned | docs/SENDER_CONTRACT.md:181-224 | the byte ranges a sender derives from the fields of its message, and those of its shard's blocks, are exactly the bytes whose block number leaves its residue |
| Sessions.PartitionIffReached | src/file_monitor/services/dispatcher.py:76-116 | whatever was delivered, the transmitted and the lost byte sets are pairwise disjoint and make up the file if and only if the counted blocks reach its end |
| Sessions.BytesConservedIff | src/file_monitor/services/dispatcher.py:76-116 | the same in terms of file size and block width alone, for all sizes |
| Sessions.BytesConserved | src/file_monitor/services/dispatcher.py:76-116 | so for every size below 2^53 with a checked configuration, every list of senders and every outcome |
| Sessions.BlocksConserved | src/file_monitor/services/dispatcher.py:154 | delivered blocks plus the reported lost block count are all the blocks |
| Sessions.DealtAll | src/file_monitor/domain/planning.py:55-65 | the shard lengths over all residues add up to the block count |
| Dispatcher.TriesEnd | src/file_monitor/services/dispatcher.py:121-147 | of all tries for one sender at most the last is accepted, and it is exactly when the outcome counts as delivered |
| Dispatcher.TwoTriesAtMost | src/file_monitor/services/dispatcher.py:121-147 | a sender is tried a second time exactly when its queue was full at the first, and never again; the last try decides |
| Dispatcher.DisconnectedIff | src/file_monitor/services/dispatcher.py:124-133 | the senders dropped from the registry are exactly those for which a try found no connection |
| Dispatcher.QueuedAreAccepted | src/file_monitor/services/dispatcher.py:81-111 | whatever every try meets, the messages in the queues are, in order, one for each sender counted as reached, its own shard's |
| Dispatcher.DispatchConserves | src/file_monitor/services/dispatcher.py:76-116 | the bytes transmitted under the messages in the queues and those of the lost shards partition the file, and the block counts add up, retries included |
| Dispatcher.SucceededAreSome | src/file_monitor/services/dispatcher.py:99-111 | an id is in the succeeded list if and only if a position of that id was delivered |
| Dispatcher.ReportNamesTheLostBlocks | src/file_monitor/services/dispatcher.py:152-168 | residue, modulus and block count in the failure report list the lost blocks exactly |
| Dispatcher.ReportAccounts | src/file_monitor/services/dispatcher.py:149-169 | the report names, in order, exactly the positions not delivered, each with its sender and so that its blocks can be listed again, and transmitted blocks plus the lost block count it reports are all blocks of the file |
| Dispatcher.RefusalIff | src/file_monitor/services/dispatcher.py:45-97 | a session is refused for its block count first, then a negative count, then its manifest, and not at all exactly when the planner accepts the file |
| Dispatcher.SessionDispatcher.constructor | src/file_monitor/services/dispatcher.py:19-38 | nothing dispatched yet |
| Dispatcher.SessionDispatcher.Dispatch | src/file_monitor/services/dispatcher.py:40-60 | no living sender: None and no try; refused: refused before any try, nothing recorded; otherwise exactly the tries the outcomes call for, the disconnected senders leave the registry, the report accounts for every block, and the session is recorded under the senders reached, None if and only if there are none |
| Dispatcher.SessionDispatcher.SendToSenders | src/file_monitor/services/dispatcher.py:65-116 | the loop over shards: every error comes before the first try, the senders reached and the lost shards are those of the outcomes, and the report returned accounts for every block |
| Dispatcher.SessionDispatcher.Encode | src/file_monitor/services/dispatcher.py:82-97 | the message of one shard is that of its position in the plan, or the reason its manifest is refused |
| Dispatcher.SessionDispatcher.Deliver | src/file_monitor/services/dispatcher.py:118-147 | at most two tries, a full queue being retried; an unknown sender leaves the registry at once |
| Dispatcher.SessionDispatcher.CompleteSession | src/file_monitor/services/dispatcher.py:62-63 | the session is forgotten, known or not |
| Uds.NextKeeps | src/file_monitor/ipc/uds.py:69-152 | every step keeps the invariant: entries point to live connections of that id, both directions are conserved in order, the bounds hold |
| Uds.RunsKeepInv | src/file_monitor/ipc/uds.py:69-159 | so it holds in every run |
| Uds.ConnsTracked | src/file_monitor/ipc/uds.py:75-106 | a connection's state agrees with what the run says of it: heard from, torn down |
| Uds.PeersAreLatest | src/file_monitor/ipc/uds.py:97-152 | in every run the table holds for s the queue of the latest connection that shook hands as s, if that one was not torn down, and nothing otherwise; a stale handler or writer never removes a newer entry |
| Uds.FirstFrameWasHello | src/file_monitor/ipc/uds.py:87-119 | in every run a connection that has an id got it from the very first frame received on it, that id's hello with the expected hash |
| Uds.VerifiedSaidHello | src/file_monitor/ipc/uds.py:87-119 | every verified id is one that some connection said hello for in its very first frame |
| Uds.PeersAreVerified | src/file_monitor/ipc/uds.py:106-119 | the entry of an id is a connection whose very first frame was that id's hello with the expected hash |
| Uds.SendReachesTheLatest | src/file_monitor/ipc/uds.py:145-152 | sending to s is unknown exactly when that connection is gone, full exactly when its queue holds 64, and otherwise appends to precisely that queue |
| Uds.SendSideFifo | src/file_monitor/ipc/uds.py:128-152 | accepted messages are, in order, those written, at most one in the writer's hands, and at most 64 queued; what is written is always a prefix of what was accepted |
| Uds.ReceiveSideFifo | src/file_monitor/ipc/uds.py:75-92 | frames received from the hello on are, in order, those handed over, those queued, and at most one its handler holds, or held when it was cancelled; the shared queue holds at most 256 |
| Uds.NothingStrays | src/file_monitor/ipc/uds.py:87-92 | every frame carries the id its connection's hello fixed, and every accepted message was addressed to the id of its connection |
| Uds.WrittenWasAddressed | src/file_monitor/ipc/uds.py:128-152 | every message written on a connection was addressed to the id for which that connection's very first frame said hello with the expected hash |
| Uds.VerifiedPersists | src/file_monitor/ipc/uds.py:87-119 | no step makes a verified id unverified |
| ServerHistories.HistoriesAreTheRun | src/file_monitor/ipc/uds.py:75-152 | accepted, received, written and handed-over histories are what the steps of the run say; a send is accepted exactly when its connection has fewer than 64 messages queued |
| ServerHistories.AllIsWritten | src/file_monitor/ipc/uds.py:128-135 | from every run, the writer's own steps bring a connection whose writer has not stopped to where every accepted message is written, in order |
| ServerHistories.AllIsHandedOver | src/file_monitor/ipc/uds.py:90-92 | from every run, hand-overs and the handler's own put bring an open connection to where every received frame has been handed over, in order |
| ServerHistories.AnyoneCanJoin | src/file_monitor/ipc/uds.py:106-119 | after any run, connecting and saying hello with the right hash puts that connection's queue into the table, replacing any entry of the id |
| ServerHistories.WaitsOnlyWhenFull | src/file_monitor/ipc/uds.py:90-92 | an open handler can receive, and waits with a frame only while 256 frames are queued |
| ServerHistories.EndedIsOver | src/file_monitor/ipc/uds.py:77-104 | once a connection hung up, was cancelled or was refused, it is in the table under no id, and nothing is received, queued or written on it any more, whatever happens later |
| UdsServer.UdsIpcServer.constructor | src/file_monitor/ipc/uds.py:29-36 | no peers, empty queues, the start of a run |
| UdsServer.UdsIpcServer.Accept | src/file_monitor/ipc/uds.py:50-54 | one connect step: a new handler with its own queue, the table unchanged |
| UdsServer.UdsIpcServer.Receive | src/file_monitor/ipc/uds.py:75-104 | one receive step: handshake on the first frame, teardown when it is refused, then the put |
| UdsServer.UdsIpcServer.CompleteHandshake | src/file_monitor/ipc/uds.py:106-119 | accepts exactly a hello with the expected hash and then registers this handler's queue under its id |
| UdsServer.UdsIpcServer.PutIncoming | src/file_monitor/ipc/uds.py:90-92 | appends the frame under the connection's id, or keeps it in hand while the queue is full |
| UdsServer.UdsIpcServer.TearDown | src/file_monitor/ipc/uds.py:97-104 | removes the table's entry only if it is this very queue, and stops the writer |
| UdsServer.UdsIpcServer.HangUp | src/file_monitor/ipc/uds.py:76-104 | one hang-up step |
| UdsServer.UdsIpcServer.Cancel | src/file_monitor/ipc/uds.py:55-59 | one cancellation step of a handler, also while it waits to put a frame |
| UdsServer.UdsIpcServer.PutResumes | src/file_monitor/ipc/uds.py:90-92 | one step: a handler that waited puts its frame under its own id |
| UdsServer.UdsIpcServer.WriterTakes | src/file_monitor/ipc/uds.py:133-134 | one step: the oldest message moves from the queue to the writer's hands |
| UdsServer.UdsIpcServer.WriterWrote | src/file_monitor/ipc/uds.py:135 | one step: the message in hand is written |
| UdsServer.UdsIpcServer.WriterFailed | src/file_monitor/ipc/uds.py:136-143 | one step: the writer stops and removes the table's entry only if it is this very queue |
| UdsServer.UdsIpcServer.Send | src/file_monitor/ipc/uds.py:145-152 | one send step with its outcome; on success the addressed queue grows by this message, and no other queue ever changes |
| UdsServer.UdsIpcServer.NextIncoming | src/file_monitor/ipc/uds.py:157-159 | one step: the oldest frame leaves the shared queue |
| WholeSystem.NextKeeps | src/file_monitor/services/dispatcher.py:40-147 | every step of server, registry, incoming loop or dispatcher keeps the joint invariant |
| WholeSystem.RunsKeepInv | src/file_monitor/main.py:47-100 | so it holds in every run of the whole |
| WholeSystem.NetRunMatches | src/file_monitor/ipc/uds.py:69-159 | the server's part of any run of the whole is one of its own runs, with the tries as calls of send, so all its theorems hold inside |
| WholeSystem.EveryIdIsVerified | src/file_monitor/ipc/uds.py:87-119 | every id among the peers, in the registry, in a dispatch or in a recorded session belongs to a connection whose very first frame was its hello with the expected hash |
| WholeSystem.AtMostOneAssignment | src/file_monitor/services/dispatcher.py:72-147 | over all connections, with retries and reconnections, a session puts at most one message per sender in any queue, all with the modulus fixed at the start, exactly for the senders counted as reached; there is none exactly when the dispatch reports none |
| WholeSystem.FinishedDispatchConserves | src/file_monitor/services/dispatcher.py:76-116 | when a dispatch is over, the bytes of its accepted messages and of its lost shards partition the file and the block counts add up, whatever came in between |
| SystemHistories.RegistryIsLazy | src/file_monitor/services/registry.py:12-33 | in every run of the whole the registry is the lazy table of the calls made on it, and the senders a dispatch would list are those whose last hello or heartbeat no removal follows and is younger than the timeout |
| SystemHistories.DispatchIsTheLoop | src/file_monitor/services/dispatcher.py:65-147 | every finished dispatch of a run, however interleaved, made exactly the tries of the dispatcher's loop under some outcome of each possible try and reached the senders that loop counts; the messages of its session in the queues are those of its accepted tries |
| SystemHistories.LoopLivesIff | src/file_monitor/main.py:92-93 | in every run the incoming loop is alive if and only if every frame handed to it could be decoded |
| SystemHistories.DeadLoopStarves | src/file_monitor/main.py:92-100 | once it has ended no frame is handed over any more, and the registry only shrinks |
| SystemSteps.HandledFrame | src/file_monitor/main.py:47-100 | a hello or heartbeat marks its sender as heard now and no other, a completion forgets its session and no other, every other frame changes neither table |
| SystemSteps.LoopCanDrain | src/file_monitor/main.py:92-100 | from every run in which the incoming loop is alive, its own turns bring it to an empty queue or to its end at a frame that cannot be decoded, in the order of the queue |
| SystemSteps.BeginOpensIff | src/file_monitor/services/dispatcher.py:45-76 | a dispatch lists exactly the senders alive by the registry's calls, is opened if and only if there is one and the planner accepts the file, and then with the system's settings and nothing decided |
| SystemSteps.DispatchCanBegin | src/file_monitor/services/dispatcher.py:40-50 | a dispatch can begin whenever none is under way, with every session id not drawn before |
| SystemSteps.TryDrops | src/file_monitor/services/dispatcher.py:121-147 | a try sends the next shard's own message to the next sender; it drops that sender from the registry exactly when it has no connection, and no other sender ever |
| SystemSteps.DispatchCanFinish | src/file_monitor/services/dispatcher.py:81-116 | every dispatch finishes by its own tries, at most two for each sender |
| SystemSteps.RecordedUntilCompleted | src/file_monitor/services/dispatcher.py:53-63 | a finished session that reached a sender stays recorded under exactly the senders it reached until a completion of it was handled; one that reached none is never recorded |
| IncomingLoop.Taken | src/file_monitor/main.py:92-100 | the frames taken are a prefix of the queue: all of it, or up to the first frame that cannot be decoded |
| IncomingLoop.DrainedState | src/file_monitor/main.py:47-86 | afterwards exactly the senders that said hello or sent a heartbeat are heard, each at the clock reading of its last such frame; other entries are untouched, and exactly the sessions reported complete are gone |
| IncomingLoop.Handle | src/file_monitor/main.py:47-86 | the handler of a frame's kind: hello and heartbeat register the connection's id, a completion forgets the session, all others change nothing |
| IncomingLoop.HandleNext | src/file_monitor/main.py:92-100 | one turn: one hand-over step of the server, the frame's effect, and an end exactly at a frame that cannot be decoded |
| IncomingLoop.DrainIncoming | src/file_monitor/main.py:89-100 | the loop over a queue, each turn with its own clock reading, takes the frames in order and stops for good at the first that cannot be decoded |
| Supervisor.NextKeepsChildren | src/file_monitor/supervision/supervisor.py:61-108 | every step keeps each child's history sound: starts after delays, delays from the streak, degraded exactly at a crash loop |
| Supervisor.ChildrenStaySound | src/file_monitor/supervision/supervisor.py:61-108 | so it is in every run |
| Restarts.RecentAreLast | src/file_monitor/supervision/supervisor.py:86-90 | in an ordered history at least m exits are recent exactly when the m-th last one is |
| Restarts.AppendedKeepsLast | src/file_monitor/supervision/supervisor.py:63 | appending to a deque of at most M entries keeps the last M of the whole history |
| Restarts.DequeRefinesHistory | src/file_monitor/supervision/supervisor.py:86-90 | a full deque whose oldest entry is within the window is the same as at least M of all exits within it |
| Restarts.DegradedIff | src/file_monitor/supervision/supervisor.py:86-93 | in every run a child is degraded exactly when, at its last exit, at least M of all its exits were within the window; at no earlier exit were they |
| Restarts.StartsFrozen | src/file_monitor/supervision/supervisor.py:65-93 | a degraded child never starts again, and after shutdown has begun no child does |
| Restarts.StartRate | src/file_monitor/supervision/supervisor.py:61-98 | in every run start i+M comes at least a window after start i, failed spawns included |
| Restarts.WindowHoldsAtMostM | src/file_monitor/supervision/supervisor.py:61-98 | any half-open interval of the window's length holds at most M starts of a child |
| Restarts.DelayFollowsStreak | src/file_monitor/supervision/supervisor.py:80-98 | the delay after the j-th exit of a streak is entry min(j-1, last) of the schedule |
| Restarts.StreakGrowsIff | src/file_monitor/supervision/supervisor.py:80-82 | a streak grows by an exit exactly when the uptime before it is at most the last entry of the schedule, and begins anew exactly when it is longer |
| Restarts.DelayClimbsTheSchedule | src/file_monitor/supervision/supervisor.py:80-98 | in every run the delay after a child's first exit and after an uptime longer than the schedule's last entry is the first entry, and after any other exit one entry further than the delay before, or the last |
| Restarts.DefaultDelays | src/file_monitor/supervision/constants.py:1 | with the defaults an uptime above 30 s brings the delay back to 1 s, otherwise it doubles, from 16 s to 30 s, where it stays |
| Restarts.ExitIsRecorded | src/file_monitor/supervision/supervisor.py:77-98 | an exit or failed spawn before shutdown adds one exit with its start and the three readings taken, and the child backs off from the last reading or is given up |
| Restarts.BackoffEndsIff | src/file_monitor/supervision/supervisor.py:100-108 | the wait after an exit may end exactly when its delay has passed or the supervisor is stopping |
| Restarts.StartIffNotStopping | src/file_monitor/supervision/supervisor.py:65-68 | at the top of its loop a child starts a spawn now, unless the supervisor is stopping, when it returns |
| Restarts.StartCanGoThrough | src/file_monitor/supervision/supervisor.py:65-75 | a start can go through: begun spawn, birth and return leave the child running a live process that is in the table under its name, or the spawn fails |
| Restarts.DeathIsSeen | src/file_monitor/supervision/supervisor.py:74-75 | the wait of a running child returns exactly once its process is gone, and then its entry, and no other, leaves the table |
| Restarts.StreakGap | src/file_monitor/supervision/supervisor.py:95-108 | two successive exits of a streak are recorded at least that delay apart |
| Restarts.SleptLongEnough | src/file_monitor/supervision/supervisor.py:95-108 | within a streak every start waited at least the scheduled delay |
| Restarts.NeverDegradedLateInAStreak | src/file_monitor/supervision/constants.py:1-4 | with the defaults a child is never given up at the eighth or a later exit of a streak: backoff alone keeps five of them 84 s apart |
| Restarts.DegradedAtTheFifthExit | src/file_monitor/supervision/supervisor.py:86-93 | with the defaults no child is given up before its fifth exit, and one is at exactly the fifth if and only if less than the window lies between recording the first exit and checking the fifth, whatever streaks they form |
| Restarts.DegradedAtTheFifthOfAStreak | src/file_monitor/supervision/constants.py:1-4 | with the defaults, when the first five exits form one streak, no wait was shorter than its delay, and the child is given up at the fifth if and only if uptimes 2 to 5 and the overshoots total less than 45 s; so 45 s of uptime keep it going, with the delay of 16 s |
| ShutdownSafety.RunsAreSound | src/file_monitor/supervision/supervisor.py:65-156 | in every run the table agrees with what the children wait for, and shutdown's progress with what is alive |
| ShutdownSafety.LiveProcessesStayRegistered | src/file_monitor/supervision/supervisor.py:73-75 | a live process that was entered in the table stays in it, under any interleaving, cancellations included |
| ShutdownSafety.ShutdownLeavesNothingAlive | src/file_monitor/supervision/supervisor.py:116-156 | entered with every live process in the table and no spawn call that can still create one, shutdown returns with nothing alive |
| ShutdownSafety.NothingSurvivesIff | src/file_monitor/supervision/supervisor.py:116-156 | for every legal run in which shutdown has not begun: every continuation of shutdown ends with nothing alive if and only if, at its entry, every live process is in the table and no spawn call can still create one |
| ShutdownSafety.Survivor | src/file_monitor/supervision/supervisor.py:116-156 | the other half by construction: from every entry that is not so, some continuation returns from shutdown and leaves a process alive |
| ShutdownSafety.RunsAreAccounted | src/file_monitor/supervision/supervisor.py:65-75 | a live process is in the table or belongs to a pending spawn, in every run in which no cancellation cut off a spawn call that had already made its process; all other cancellations are allowed |
| ShutdownSafety.NoPendingSpawnNoSurvivor | src/file_monitor/supervision/supervisor.py:116-156 | if no spawn is pending when shutdown is entered, no process is alive when it returns, whether or not the graceful wait timed out, whatever happens in between and whichever children were cancelled before, as at the program's exit; excluded is only a cancellation that cut off a spawn call which had already made its process |
| ShutdownSafety.PendingSpawnOutlivesShutdown | src/file_monitor/supervision/supervisor.py:116-156 | an example of the other half: a literal run with a spawn pending all through shutdown |
| ShutdownCourse.GraceLasts | src/file_monitor/supervision/supervisor.py:122-144 | in every run the graceful wait is for the processes in the table when shutdown was entered, and may end exactly when all are gone or the timeout has passed since the entry |
| ShutdownCourse.DefaultGrace | src/file_monitor/supervision/constants.py:6 | with the defaults, processes that do not end by themselves are given exactly 5 s |
| ShutdownCourse.EntryIff | src/file_monitor/supervision/supervisor.py:116-129 | with an empty table shutdown returns at once, otherwise the graceful wait begins; a call when already stopping changes nothing |
| ShutdownCourse.KilledAndReaped | src/file_monitor/supervision/supervisor.py:149-156 | after the graceful wait exactly what is in the table then is killed and waited for, and shutdown returns exactly when all of that is gone |
| ShutdownCourse.ShutdownCanReturn | src/file_monitor/supervision/supervisor.py:116-156 | nothing keeps shutdown from returning: wherever it is, deaths and its own steps bring it to its end |
| ShutdownCourse.StopInterruptsBackoff | src/file_monitor/supervision/supervisor.py:65-108 | stopping interrupts a backoff: the child may go on at once, and returns without a start |
| ProcessSupervision.DequeDecides | src/file_monitor/supervision/supervisor.py:86-90 | after one more exit the task's deque is the last M exits and its test is the crash-loop test on all of them |
| ProcessSupervision.ProcessSupervisor.constructor | src/file_monitor/supervision/supervisor.py:28-56 | one task per child, empty tables, the start of a run |
| ProcessSupervision.ProcessSupervisor.Outside | src/file_monitor/supervision/supervisor.py:68-74 | time, births and deaths of processes are steps that change none of the supervisor's objects |
| ProcessSupervision.ProcessSupervisor.StartChild | src/file_monitor/supervision/supervisor.py:65-68 | one step: begins a spawn, or returns when the supervisor is stopping |
| ProcessSupervision.ProcessSupervisor.SpawnReturned | src/file_monitor/supervision/supervisor.py:72-74 | one step: the process enters the table under its child's name |
| ProcessSupervision.ProcessSupervisor.SpawnFailed | src/file_monitor/supervision/supervisor.py:69-98 | one step: a failed spawn counts as an exit |
| ProcessSupervision.ProcessSupervisor.ProcessExited | src/file_monitor/supervision/supervisor.py:74-98 | one step: the entry leaves the table, then what follows an exit |
| ProcessSupervision.ProcessSupervisor.AfterExit | src/file_monitor/supervision/supervisor.py:77-98 | return when stopping, otherwise reset the streak after a long uptime and decide; the new state is that of the step system, which sees all exits |
| ProcessSupervision.ProcessSupervisor.GiveUpOrBackOff | src/file_monitor/supervision/supervisor.py:86-98 | gives the child up exactly at a crash loop of its whole history, otherwise takes the next delay of the schedule |
| ProcessSupervision.ProcessSupervisor.BackoffOver | src/file_monitor/supervision/supervisor.py:100-108 | one step back to the top of the loop |
| ProcessSupervision.ProcessSupervisor.CancelChild | src/file_monitor/supervision/supervisor.py:54-56 | one step: the child's loop stops where it waits, its table entry stays |
| ProcessSupervision.ProcessSupervisor.EnterShutdown | src/file_monitor/supervision/supervisor.py:116-144 | one step: terminates exactly the processes in the table and waits for them until the timeout from now, returns at once with an empty table, or changes nothing when already stopping |
| ProcessSupervision.ProcessSupervisor.GraceOver | src/file_monitor/supervision/supervisor.py:142-147 | one step: the graceful wait ends |
| ProcessSupervision.ProcessSupervisor.KillRemaining | src/file_monitor/supervision/supervisor.py:149-154 | one step: kills exactly what is in the table now |
| ProcessSupervision.ProcessSupervisor.ShutdownReturns | src/file_monitor/supervision/supervisor.py:155-156 | one step: shutdown returns, and nothing is alive if it was entered with every live process in the table and no spawn call that could still create one |
| ProcessSupervision.ProcessSupervisor.IsDegraded | src/file_monitor/supervision/supervisor.py:58-59 | true exactly when, at the child's last exit, at least M of all its exits were within the window |
| Debounce.EmissionIsQuiet | src/file_monitor/services/watcher.py:52-63 | every emission answers the newest event of its path, a full interval later, with nothing on the path in between |
| Debounce.EmissionsApart | src/file_monitor/services/watcher.py:52-63 | two emissions of a path are at least the interval apart |
| Debounce.WakeIsAllowed | src/file_monitor/services/watcher.py:58-63 | a waking timer is always the table's current one, and its path may be emitted |
| Debounce.NextKeeps | src/file_monitor/services/watcher.py:25-63 | every step keeps table, counts, trace and queue in agreement |
| Debounce.RunsKeepInv | src/file_monitor/services/watcher.py:25-63 | so they agree in every run |
| Debounce.RefinesTrace | src/file_monitor/services/watcher.py:52-63 | every run shows a debounced trace, and while the watcher is open the code can emit a path exactly when the trace allows it |
| Debounce.EveryTraceHappens | src/file_monitor/services/watcher.py:52-63 | conversely every debounced trace is shown by some run |
| Debounce.EventsSplit | src/file_monitor/services/watcher.py:52-63 | events on a path are its emissions, its cancelled and its live timers; at most one is live, the table's, made by the newest event |
| Debounce.IdleMeansEmitted | src/file_monitor/services/watcher.py:58-63 | once no timer is live in an open watcher, the last event of every path has been emitted |
| Debounce.EmittedInOrder | src/file_monitor/services/watcher.py:25-39 | what was emitted is, in order, what was handed out, at most one path in hand, and the queue |
| Debounce.AllIsHandedOut | src/file_monitor/services/watcher.py:25-39 | from every run of an open watcher the listener's own steps bring it to where it waits with an empty queue and has handed out every path ever emitted, in order |
| Debounce.EveryEventCanBeHandedOut | src/file_monitor/services/watcher.py:25-63 | from every run of an open watcher, one interval without events lets every timer wake and every path with an event be emitted and handed out |
| Debounce.NothingAfterTheEnd | src/file_monitor/services/watcher.py:33-50 | once the source of events or the listener has ended, no event arrives and no path is handed out; once the listener has ended nothing is emitted |
| Watching.TimerTask.Cancel | src/file_monitor/services/watcher.py:53-55 | cancelling a timer that has ended does nothing |
| Watching.DirectoryWatcher.constructor | src/file_monitor/services/watcher.py:10-20 | no timers, an empty queue, the start of a run |
| Watching.DirectoryWatcher.DebouncePath | src/file_monitor/services/watcher.py:52-56 | one event step: the path's timer is cancelled and a new one takes its place, no other entry changes |
| Watching.DirectoryWatcher.EmitWhenStable | src/file_monitor/services/watcher.py:58-63 | one wake step: the timer leaves the table, where it always is, and its path joins the queue |
| Watching.DirectoryWatcher.TakeStable | src/file_monitor/services/watcher.py:28-32 | one step: the oldest stable path comes into the listener's hands, also by a request abandoned when the listener ended |
| Watching.DirectoryWatcher.HandOut | src/file_monitor/services/watcher.py:33-39 | one step: the path is handed out, or, when the source of events has ended, the listener ends and the path in hand is lost |
| Watching.DirectoryWatcher.AskAgain | src/file_monitor/services/watcher.py:28-32 | one step: the listener asks for the next path again |
| Watching.DirectoryWatcher.SourceEnds | src/file_monitor/services/watcher.py:48-50 | one step: no more events are consumed |
| Watching.DirectoryWatcher.EndListening | src/file_monitor/services/watcher.py:40-46 | one step: every timer still running is cancelled, so none is live afterwards, and the table is left as it is |

## Left out

- Real sockets, file notification, process creation, hashing, the encoding of messages to bytes, and logging: they are steps of the outside world or parameters, and decoding gives one of the modelled frames or fails.
- The randomness of session ids: that a drawn id has not been drawn before is a condition of the step that begins a dispatch.
- Configuration loading, environment overrides, entry points and containers: the facts the configuration check establishes appear as `FecParams.Validated` and a positive base port.
- The pause of 0.05 s before a second try: any time may pass between two tries, so the theorems hold for every pause.
- Rate control: its values are not connected to dispatch.
- Integer widths of message fields, and that `base_port + residue` fits 16 bits: the fields are unbounded integers.
- Rounding of clock readings: times are real numbers, so differences of readings are exact.
- Dispatcher.SessionDispatcher.Dispatch: takes the outcome of each possible try as a parameter and runs without interruption, and so do `SendToSenders` and `Deliver`; `SystemHistories.DispatchIsTheLoop` shows that each dispatch of `WholeSystem`, interleaved with reconnections, expiries and other frames, is one of these for some outcomes. Cancelling a dispatch half-way, and errors while reading or hashing the file, are in neither.
- WholeSystem.AtMostOneAssignment: speaks of one dispatch at a time, as the detection loop awaits each dispatch before the next. When the incoming loop ends, the other parts go on in the model, where the program would cancel them.
- UdsServer.UdsIpcServer.TearDown: takes the cancellation of the writer to be immediate, so a message whose write was under way counts as unsent although it may have left.
- UdsServer.UdsIpcServer.Accept: does not model the set of handler tasks; shutting the server down is a cancellation of each handler.
- ProcessSupervision.ProcessSupervisor.KillRemaining: says which processes are signalled; that a killed process ends is a death step the outside world takes, and the last wait is over only then.
- ProcessSupervision.ProcessSupervisor.constructor: takes a set of names, since the sender processes are named by their index and so are distinct.
- Watching.DirectoryWatcher.EndListening: does not tell a request for the next path that is abandoned from one that is cancelled with it; either way a path it takes afterwards is handed to nobody.
- That "accepted by `send`" means "delivered to the peer", that a session is tracked until all its senders are done, and that the registry is a subset of the peers: the code promises none of these.
- Session management and receivers as described in `docs/GUIDE.md`: that code is not in the repository.
