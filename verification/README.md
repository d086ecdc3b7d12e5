# A verified model of a small Google File System

The system keeps files as 64 MB chunks. A Python master holds the namespace, the list of
chunks of every file, the replicas and version of every chunk, write leases, an operation
log and a checkpoint. C++ chunkservers hold the chunk bytes, a checksum file for each chunk
and a buffer of pushed but uncommitted writes. A Python client asks the master where a chunk
is and then reads, writes or appends directly at the chunkservers.

The project states what these programs do, in two layers, and proves what follows:

- **Objects.** `MasterServer.dfy`, `ChunkService.dfy`, `ChecksumStore.dfy`, `ClientRead.dfy`,
  `ClientCalls.dfy` and the lock manager of `PathLocks.dfy` are classes with the fields, loops
  and branches of the originals. Chunkservers call one another over a network object in which
  the outcome of every single call is a parameter: lost before it takes effect, lost after, or
  delivered.
- **Functions.** Every state-changing method is proved to do to its objects what a function in
  `MasterState.dfy` or `ChunkState.dfy` (or in the class's own file) does to the state as a
  value. The theorems are about those functions: over all runs of the master
  (`MasterRuns.dfy` and the files that import it), over all patterns of lost calls
  (`WriteChain.dfy`, `RecordAppend.dfy`), over both together (`EndToEnd.dfy`), over all message
  schedules of the whole cluster (`Cluster.dfy`), and over all inputs of the checksum loop
  (`Gf2.dfy`, `Crc32.dfy`, `Residue.dfy`).

Check everything with `dafny verify dfyconfig.toml`.

## What the runs assume

- The handlers of the master, one pass of each background thread, and one append at a
  chunkserver are atomic steps. For appends the code has a mutex (`chunkserver/main.cpp:124-125`).
  For writes it has none; for the lease check and the grant, two calls
  (`master/server.py:161-162`), and for a clone followed by the append to the replica list
  (`master/replication.py:75-82`) atomicity is an assumption.
- The master reads its clock once in each operation, in whole seconds, and the clock never goes
  back.
- A run covers one incarnation of the master, except in `Recovery.dfy`, `CheckpointCrash.dfy`
  and `Restart.dfy`, which are about what the next incarnation finds, and in `Incarnations.dfy`,
  where any number of them follow one another.

## Where the code differs from its description

- Deleted files are said to be removed for good in the background (`README.md:56-57`). A delete
  renames the namespace entry and leaves the chunk list under the old path, while the scan looks
  for chunks under the hidden path, so chunks are never collected as long as clients stay out of
  the hidden directory: `CheckpointCrash.NothingIsCollected`.
- The primary is said to commit when all replicas acknowledge buffering (`README.md:44`), and all
  replicas to apply the same writes (`README.md:238`). The primary commits early exactly when its
  own calls get through and any push call is lost: `WriteChain.PrimaryCommitsEarlyIff`. Replicas
  that were equal stay equal exactly under the losses of `WriteChain.SparesReplicas`:
  `WriteChain.ReplicasStayEqualIff`, with `WriteChain.FailedWriteDiverges` as an example.
- Failures are said to be repaired (`README.md:50-54`). A re-replication request that finds no
  source or no target is dropped, and so is a stale repair that finds no healthy source; a copy
  made for a request to a server already queued for repair is counted twice.
  `Replication.CoverageKeptIff` says exactly when a copy is lost, `Replication.GivingUpForgets` is a
  run that loses one.
- A clone does not truncate, so it makes its target equal to the source only if the target was
  not the longer one: `RecordAppend.CloneRepairsIff`.
- A restart knows the placement of a chunk, and gives out fresh handles, only as far as the last
  checkpoint goes: `Restart.RestartLosesPlacement` says exactly which requests are answered and when
  the handle counter is right. A crash between writing a checkpoint and emptying the log makes every
  chunk of that log appear twice in its file: `CheckpointCrash.CrashBeforeTruncation`.
- An append to a full chunk is answered with a request to retry on the next chunk
  (`chunkserver/main.cpp:149`), and the client does not ask for one (`client/gfs_client.py:124-130`).
  Index -1 never allocates once a file has a chunk, so the retry goes to the same chunk exactly
  while nobody extends the file by its index and no scan erases its list: `EndToEnd.SameChunkIff`. `EndToEnd.RetryAcceptedIff`
  says when it is accepted, `EndToEnd.StuckFile` is a run that ends with a file that takes no record.
- A location request only to read renews an expired lease and raises the version
  (`master/server.py:161-162`), which no replica is told. Each replica stays one exactly if a write
  or clone with the new version reaches it before it reports: `LeaseRenewal.SurvivesReportIff`. One
  read can leave a chunk with no replica and nothing queued: `LeaseRenewal.ReadLosesChunk`.
- Replicas are said to apply the same writes and failures to be repaired (`README.md:50-54`,
  `README.md:238`). A server that was sent the data of a write remembers its version without having
  applied it, so it reports itself current and nothing is repaired: `Divergence.DivergenceUnseen`.
- An append is said to be atomic and to return the offset of its data
  (`client/gfs_client.py:95-99`). After a change of the primary the new one gives out offsets the
  old one has used exactly if it had missed something, and a clone from it repairs the old primary
  exactly if there is nothing to repair: `PrimaryChange.OffsetUsedTwiceIff`,
  `PrimaryChange.OldPrimaryRepairedIff`, with `PrimaryChange.LostToChange` as an example.
- Padding is forwarded without a version (`chunkserver/main.cpp:144-147`), so every secondary that
  takes it remembers version 0 and is stale after its next report: `Versions.AppendSeen`.
- Serial numbers count up in each client (`client/pipeline.py:15-26`) while the buffer is keyed by
  chunk and serial, so of two clients writing to one chunk one may commit the other's data:
  `WriteChain.SerialsCollide`.
- A checksum is taken of the data of a write and recorded for the block the write starts in
  (`chunkserver/main.cpp:92`); `Sums.SummedIsBlockIff` says when that is the block's checksum.
- A re-replication that fails goes back to the front of its queue (`master/replication.py:35-43`),
  so one chunk that cannot be copied keeps all chunks with greater handles waiting:
  `Repairs.LeastHandleBlocks`.
- Hidden names replace slashes by underscores and have a resolution of one second
  (`master/garbage_collection.py:20-22`): `Trash.SameHiddenNameIff` says when two deleted files share
  one, and then only the later is kept.
- A client write is not split at the chunk border (`client/pipeline.py:28-74`). What sticks out is
  never read back, and the append handler throws on such a chunk: `ClientRead.ReadBackIff`,
  `EndToEnd.AppendThrowsIff`.
- `grant_lease` tests for a missing chunk only after using it (`master/lease.py:15-20`), so it
  raises an exception where it means to return nothing; the model has the exception.

## Model

| member | source | states |
|---|---|---|
| Gf2.DivisionHolds | chunkserver/checksum.cpp:18-28 | schoolbook long division over GF(2) by the CRC-32 generator satisfies dividend = quotient times divisor plus remainder (section 8 of RFC 1952 names the generator) |
| Gf2.DivisionUnique | chunkserver/checksum.cpp:18-28 | any quotient and 32-bit remainder that satisfy the division equation are the ones long division finds |
| Gf2.FeedIsRemainder | chunkserver/checksum.cpp:22-25 | running the reflected shift register over a message of any length leaves the remainder of the message times x^32 with the start value added to the leading coefficients |
| Gf2.FeedLinear | chunkserver/checksum.cpp:22-25 | the register is linear in start value and message together |
| Gf2.FeedInjective | chunkserver/checksum.cpp:24 | two different registers fed the same bits stay different |
| Gf2.FeedAbsorbs | chunkserver/checksum.cpp:22-25 | feeding up to 32 bits equals XORing them into the low end of the register and then shifting that many times, which is how the loop takes a whole byte at once |
| Gf2.BurstSeen | chunkserver/checksum.cpp:22-25 | two different windows of at most 32 bits, followed by the same bits, never leave the same register |
| Crc32.RoundIsStep | chunkserver/checksum.cpp:24 | the branch-free round with the mask made by unsigned negation is one step of the shift register, for every 32-bit value |
| Crc32.Compute | chunkserver/checksum.cpp:19-28 | the nested loops return the complemented register after the whole message, for every byte sequence |
| Crc32.ChecksumIsRemainder | chunkserver/checksum.cpp:19-28 | the checksum is the complement of a remainder of the (initially complemented, reflected) message by the generator, and of every such remainder |
| Crc32.ChecksumAffine | chunkserver/checksum.cpp:19-28 | for equal-length blocks the XOR of three checksums is the checksum of the XOR of the blocks |
| Crc32.BurstDetected | chunkserver/checksum.cpp:19-28 | two different blocks of one length whose bits differ only inside some 32 consecutive bits, such as 4 consecutive bytes, never share a checksum |
| Residue.ResidueValue | chunkserver/checksum.cpp:19-28 | any data followed by its own little-endian checksum has the checksum 0x2144DF1C |
| ChecksumStore.DecodeEncode | chunkserver/checksum.cpp:72-78 | what is written to a checksum file reads back as the same vector of words |
| ChecksumStore.EncodeDecode | chunkserver/checksum.cpp:36-41 | a file of whole words that is read and written again is unchanged |
| ChecksumStore.EncodedWord | chunkserver/checksum.cpp:72-78 | the four bytes of the i-th word stand at offset 4i of the file |
| ChecksumStore.ChecksumStore.LoadFromDiskIfNeeded | chunkserver/checksum.cpp:30-43 | a cached vector stays; otherwise the whole words of the file, or nothing for a missing file, enter the cache; the file is not touched |
| ChecksumStore.ChecksumStore.SaveToDisk | chunkserver/checksum.cpp:72-78 | the file becomes the encoding of the cached vector |
| ChecksumStore.ChecksumStore.Update | chunkserver/checksum.cpp:45-56 | the vector in cache and file is the old one, extended with zeros if needed, with the one block replaced; a negative index below -1 throws and changes no vector; cache and file stay coherent |
| ChecksumStore.ChecksumStore.Verify | chunkserver/checksum.cpp:58-70 | true exactly when a checksum is recorded for the block and equals that of the data; never for a negative index or one past the end |
| ChecksumStore.StoreIsMap | chunkserver/checksum.cpp:30-78 | after any run of updates, checks and restarts over any chunks and blocks, the cache is what the files decode to, and each block reads as the last checksum put for it, else what was there, else zero below a later block, else nothing |
| ChecksumStore.CacheDropInvisible | chunkserver/checksum.cpp:30-43 | dropping the cache at any point of a run changes no later answer |
| Text.BufferKeyInjective | chunkserver/main.cpp:51 | two writes share a buffer key only if they share chunk handle and serial number |
| Text.DigitsMean | chunkserver/main.cpp:51 | a number's decimal text consists of digits, stands for it, and begins with a zero only if it is zero |
| ChunkService.ChunkStorage.Read | chunkserver/storage.cpp:19-34 | the bytes from the offset, clipped at the end of the file; an error for a missing file |
| ChunkService.ChunkStorage.Write | chunkserver/storage.cpp:36-50 | creates the file if needed and lays the data over it, gap filled with zeros, bytes beyond kept; at a negative offset nothing is written |
| ChunkService.ChunkStorage.Append | chunkserver/storage.cpp:52-60 | the data goes behind the old bytes and the old size is returned |
| ChunkService.ChunkStorage.Remove | chunkserver/storage.cpp:62-66 | file and version are gone, everything else stays |
| ChunkService.ChunkStorage.ListAll | chunkserver/storage.cpp:68-81 | every chunk on disk exactly once, in some order |
| ChunkService.WriteBuffer.Put | chunkserver/buffer.cpp:4-11 | the entry under the key is the new data, other keys keep theirs |
| ChunkService.WriteBuffer.Take | chunkserver/buffer.cpp:13-23 | the buffered data, and the key is gone; an error when there is none |
| ChunkService.HeartbeatSender.Report | chunkserver/heartbeat.cpp:28-35 | every chunk on disk once, each with the version the server remembers or 0 |
| ChunkService.HeartbeatSender.Collect | chunkserver/heartbeat.cpp:41-45 | exactly the chunks the master named are removed |
| ChunkService.ChunkServiceImpl.ReadChunk | chunkserver/main.cpp:26-46 | fails exactly when the chunk is missing or the length negative, else the clipped slice; no checksum is consulted |
| ChunkService.ChunkServiceImpl.ForwardWrite | chunkserver/main.cpp:48-77 | the recursive push changes the network as the chain of pushes does, whatever calls are lost |
| ChunkService.ChunkServiceImpl.WriteChunk | chunkserver/main.cpp:79-121 | the commit loop changes the network, and answers, as committing at the primary and then at each secondary up to the first failure |
| ChunkService.ChunkServiceImpl.AppendChunk | chunkserver/main.cpp:123-184 | the append changes the network, and answers, as appending the record or the padding at the primary and sending the same block to every reachable secondary |
| ChunkService.ChunkServiceImpl.CopyChunkTo | chunkserver/main.cpp:192-230 | nothing for an empty chunk, else a push and a commit of the whole chunk at the target under the clone serial |
| ChunkService.ChunkServiceImpl.DeleteChunk | chunkserver/main.cpp:186-190 | the chunk's bytes and version go, buffer and checksums stay |
| WriteChain.PushIsPrefix | chunkserver/main.cpp:48-77 | with any calls lost, a push buffers the data on a prefix of the chain and changes nobody else |
| WriteChain.CommitIsPrefix | chunkserver/main.cpp:96-117 | a commit takes effect on a prefix of the secondaries, each of which had the data buffered |
| WriteChain.CommitSucceeds | chunkserver/main.cpp:96-120 | the primary reports success exactly when every secondary committed and every reply came back |
| WriteChain.WriteLeavesPrefixes | client/pipeline.py:28-74 | after a client write the servers that committed are a prefix of those that buffered, which are a prefix of the chain; both lengths are fixed by the outcomes of the calls, and the client is told it succeeded exactly when every call went through |
| WriteChain.WriteResultIff | client/pipeline.py:54-74 | the client gets an error of the call if and only if the primary did not answer the push or the commit, a failed commit if and only if it answered both and not every call went through, else success |
| WriteChain.PrimaryCommitsEarlyIff | chunkserver/main.cpp:69-94 | on a live chain the primary commits while some server has not buffered the data if and only if its own push and commit get through and any push call is lost |
| WriteChain.AllOrNoneCommitIff | chunkserver/main.cpp:96-117 | all servers of a live chain commit or none does, if and only if the primary never commits, or no push and no commit call is lost and every secondary but the last has its reply delivered |
| WriteChain.ReplicasStayEqualIff | client/pipeline.py:28-74 | equal replicas are equal after a write that changes them if and only if the losses are those, whether or not the client is told of success |
| WriteChain.AcknowledgedEverywhere | client/pipeline.py:70-74 | after an acknowledged write every server of the chain has those bytes at that offset and the new version, its buffer is as before, and no other chunk changed |
| WriteChain.FailedWriteDiverges | chunkserver/main.cpp:69-77 | one such loss: when the push stops behind the primary, the write fails, yet the primary has committed it and nobody else has anything |
| WriteChain.NoPushCommittedTwice | chunkserver/buffer.cpp:13-23 | on one server, for any arrivals, deletions included, in any order and number, the successful commits under a key never exceed the pushes under it |
| WriteChain.SerialsCollide | client/pipeline.py:15-26 | two clients that write to one chunk with the same serial: when both push before either commits, the first to commit writes the other's data at its own offset and is told it succeeded, and the other finds nothing |
| RecordAppend.SecondariesHoldSubsequence | chunkserver/main.cpp:123-184 | for any appends and clones through one primary and any lost messages, each secondary holds in order exactly the blocks that reached it, is never longer than the primary, which never outgrows 64 MB, and equals the primary exactly when as long |
| RecordAppend.CloneCopies | chunkserver/main.cpp:192-230 | a clone that lands leaves the source's bytes followed by whatever the target had beyond them and changes nobody else |
| RecordAppend.CloneRepairsIff | chunkserver/storage.cpp:36-50 | a successful clone makes target and source equal if and only if the target was not longer |
| RecordAppend.CloneCatchesUp | master/replication.py:97-107 | in single-primary append runs a successful clone from the primary makes its target equal to it, whatever it had missed |
| RecordAppend.SumsStaySmall | chunkserver/main.cpp:128-133 | in such runs the 32-bit sum of size and record never overflows, so the test says exactly whether the record fits |
| RecordAppend.AcknowledgedRecordStays | chunkserver/main.cpp:181-182 | an append that fits is answered with the primary's old length and the record stays there through all later appends and clones; one that does not fit leaves only padding and the chunk never changes again |
| PrimaryChange.CopiesNeverShrink | chunkserver/main.cpp:123-184 | whatever the servers hold when one becomes primary, it only appends to its own copy, nobody's copy shrinks and none outgrows 64 MB |
| PrimaryChange.CloneLeavesLonger | chunkserver/main.cpp:192-230 | a server that was longer at the change than the new primary has become is not made equal by a successful clone |
| PrimaryChange.FrontSurvives | master/lease.py:22-32 | over any number of changes of the primary among servers with the same bytes in front, they all keep these bytes |
| PrimaryChange.OldPrimaryRepairedIff | master/replication.py:87-116 | after the first change, a successful clone makes the old primary equal to the new one if and only if they were equal |
| PrimaryChange.TakenInFullIff | chunkserver/main.cpp:153-178 | right after an acknowledged append a server has the record at its offset, with all before it, if and only if it is as long as the primary |
| PrimaryChange.AcknowledgedSurvives | client/gfs_client.py:95-132 | on such a server the record survives the rest of the run and any later primaries that took it as well |
| PrimaryChange.OffsetUsedTwiceIff | chunkserver/main.cpp:153-182 | the new primary answers its first record with an offset inside the old primary's bytes if and only if the two copies differ |
| PrimaryChange.LostToChange | master/lease.py:27-32 | two records acknowledged at offset 0 by two primaries in turn, of which the second never has the first, and no clone from it that reports success makes them equal |
| ClientCalls.WritePipeline.NextSerial | client/pipeline.py:23-26 | each serial is the counter's value, and the counter moves on by one |
| ClientCalls.WritePipeline.Write | client/pipeline.py:28-74 | without a primary nothing happens; otherwise one serial is used up and the network and the result are those of the push and commit protocol |
| ClientCalls.AppendRecord | client/gfs_client.py:95-132 | the client's append, with its size limit and every way a call can fail, changes the network and answers as the append protocol does |
| ClientCalls.AppendOutcomeMeans | client/gfs_client.py:100-132 | an offset handed to the client is where the record starts on the primary; -1 means the chunk was padded to exactly 64 MB; a refused record changed nothing anywhere |
| ClientCalls.AppendOutcomeIff | client/gfs_client.py:100-132 | each outcome of an append has its exact cause: a record over 16 MB, no primary, an unanswered call, a 32-bit sum of the primary's size, which is the offset, and the record within 64 MB, a full chunk, or one that has outgrown its size |
| ClientRead.GFSClient.CacheGet | client/cache.py:18-24 | a fresh entry is returned and kept, an expired one dropped |
| ClientRead.GFSClient.Read | client/gfs_client.py:39-93 | the loops over pieces and replicas, with their effect on the location cache, compute the piece-by-piece specification under any answers from outside |
| ClientRead.ReadIsExact | client/gfs_client.py:39-93 | whatever calls fail and whichever replicas answer, data returned is exactly the requested range of the file's chunks in order, clipped at its end; of a chunk file that outgrew 64 MB only the first 64 MB count |
| ClientRead.ReadSucceedsIff | client/gfs_client.py:64-88 | in a steady cluster a read returns data if and only if every chunk the range touches exists and has a replica that answers |
| ClientRead.ReadServed | client/gfs_client.py:50-86 | with answers that change over time and any cache, a read returns data if for every chunk it touches each location it may use, new or cached, names a replica that always answers |
| ClientRead.OverlaidByte | chunkserver/storage.cpp:36-50 | byte by byte: written where the data went, old where the file had it, zero in a gap; the size grows to the end of the data and never shrinks |
| ClientRead.WriteIsOverlay | chunkserver/storage.cpp:36-50 | writing inside one chunk of a file whose other chunks are full is the same overlay on the whole file |
| ClientRead.ReadAfterWrite | client/pipeline.py:28-74 | a read after an acknowledged write sees the new bytes where they were written, the old ones elsewhere and zeros in a gap; of a write longer than its chunk it sees the part that fits |
| ClientRead.ReadBackIff | client/pipeline.py:28-31 | reading back the range of an acknowledged write to the last chunk, with a replica that always answers, returns if and only if the write fits the chunk, and then returns the written bytes |
| PathLocks.NamespaceLockManager.AcquireForOperation | master/metadata.py:34-45 | the loop takes the locks of the path's prefixes, shortest first, skipping empty components, and every one of them has a lock object afterwards |
| PathLocks.LocksOfText | master/metadata.py:34-45 | however a path is spelled, with any numbers of slashes, it has as many locks as components, and the k-th is named by the first k components with one slash before each |
| PathLocks.EveryPathSpelled | master/metadata.py:36 | every text is a path spelled so |
| PathLocks.FirstLock | master/metadata.py:38-44 | a path that begins with slashes and a component c takes the lock "/c" first |
| PathLocks.SharedLockSharesFirst | master/metadata.py:34-45 | two paths that need a common lock have the same first lock |
| PathLocks.SharedLockIff | master/metadata.py:34-45 | two paths need a common lock if and only if they begin with the same component |
| PathLocks.LockNamesDistinct | master/metadata.py:34-45 | no path takes a lock twice |
| PathLocks.RunKeepsPrefixes | master/metadata.py:34-45 | in every schedule of any number of handlers the locks of each one are exactly the first ones of its list, as many as it has come to hold |
| PathLocks.NeverBothInside | master/server.py:88-112 | two handlers whose paths begin with the same component, however spelled, are never both inside their operation |
| PathLocks.HoldersNeverWait | master/metadata.py:39-44 | a handler that holds its first lock can always go on |
| PathLocks.NoDeadlock | master/metadata.py:39-44 | in every reachable state in which somebody has not finished somebody can move |
| PathLocks.EveryHandlerFinishes | master/server.py:88-112 | no schedule is longer than the steps there are, and a schedule that cannot be continued has taken all of them and left every handler finished |
| MasterServer.MetadataStore.AllocateChunk | master/metadata.py:56-67 | the next handle goes to the end of the file's list, into both chunk tables, and the counter moves on |
| MasterServer.OperationLog.Append | master/oplog.py:16-22 | the record goes to the end of the log |
| MasterServer.OperationLog.Replay | master/oplog.py:24-35 | all records in order |
| MasterServer.OperationLog.WriteCheckpoint | master/oplog.py:37-58 | the checkpoint holds the metadata and the log is empty |
| MasterServer.LeaseManager.GrantLease | master/lease.py:12-32 | an exception for an unknown chunk and nothing without a healthy replica; otherwise version plus one, logged, the first healthy replica primary, expiry one lease duration ahead |
| MasterServer.LeaseManager.HasValidLease | master/lease.py:34-38 | true exactly for a known chunk with a primary whose lease has not expired |
| MasterServer.HeartbeatMonitor.HandleHeartbeat | master/heartbeat.py:14-42 | the server is seen, each reported chunk moves the server between the replica and the stale list as its version says, each newly stale one queues a repair if there is a replication manager, and the reply is what awaits collection |
| MasterServer.HeartbeatMonitor.DropServer | master/heartbeat.py:54-61 | the dead server leaves every replica list and the table of live servers, nothing else changes |
| MasterServer.ReplicationManager.WorkerPass | master/replication.py:35-43 | takes a least request; drops it, adds one new replica, or puts it back, as the outcome of the clone says |
| MasterServer.ReplicationManager.Rereplicate | master/replication.py:55-84 | orders a copy from the first replica to a live server that is no replica yet, unless the chunk is gone, has three replicas, has none, or no such server exists |
| MasterServer.ReplicationManager.StaleWorkerPass | master/replication.py:45-53 | takes the oldest repair; it is done, dropped, or goes to the back of the queue |
| MasterServer.ReplicationManager.RepairStaleReplica | master/replication.py:87-116 | the copy is ordered from a healthy replica, from the primary if that is one; after a successful clone the server is no longer stale and is a replica; nothing is ordered or changed when the chunk or every healthy source is gone |
| MasterServer.LeastExists | master/replication.py:37 | every non-empty queue has a least request for the worker to take |
| MasterServer.GarbageCollector.SoftDelete | master/garbage_collection.py:14-28 | the entry moves to the hidden name with its deletion time, and the delete is logged |
| MasterServer.GarbageCollector.ScanAndCollect | master/garbage_collection.py:34-51 | exactly the expired hidden entries go, and exactly the chunks listed under their hidden names leave the chunk tables and await collection |
| MasterServer.Sample | master/server.py:137-142 | up to three distinct members of the population, all of it when smaller |
| MasterServer.MasterServicer.constructor | master/server.py:20-43 | a new master over the files of an earlier one has exactly the recovered metadata, no known servers and empty queues |
| MasterServer.MasterServicer.RestoreState | master/server.py:45-86 | checkpoint, if any, and then every log record in order |
| MasterServer.MasterServicer.CreateFile | master/server.py:88-101 | a new name is bound and logged, an existing one refused without effect |
| MasterServer.MasterServicer.DeleteFile | master/server.py:103-112 | a known name is soft-deleted, an unknown one refused without effect |
| MasterServer.MasterServicer.GetChunkLocations | master/server.py:114-175 | every branch of the request, including index -1, other negative indices, a missing file, chunk or server, allocation on a drawn sample and lease renewal, with the new state and the reply |
| MasterServer.MasterServicer.HeartBeat | master/server.py:177-183 | the heartbeat's effect on the whole master, log and re-replication queue untouched |
| MasterServer.MasterServicer.HandleFailure | master/server.py:33-38 | after dropping the server, one high-priority request for every chunk with fewer than three replicas |
| MasterServer.MasterServicer.CheckDeadServers | master/heartbeat.py:44-52 | one pass fails exactly the servers silent for more than 15 seconds, each once |
| MasterServer.PassIsRun | master/heartbeat.py:44-52 | such a pass is a legal run of single failures, so what is proved of all runs holds through it |
| MasterServer.TimedOutIff | master/heartbeat.py:44-52 | the servers such a pass finds are, over every run, those last heard of more than fifteen seconds ago and not declared dead since |
| MasterRuns.HandlesConserved | master/metadata.py:56-67 | in every reachable state the handles given out are the disjoint union of those listed by exactly one file exactly once, which are the domain of both chunk tables, and those awaiting collection |
| MasterRuns.CollectedNeverReferenced | master/garbage_collection.py:34-51 | a handle a heartbeat reply names for deletion belongs to no file then or ever later |
| MasterRuns.InternalErrorIff | master/server.py:122-152 | over all runs a location request fails unexpectedly if and only if the file exists and the index is negative, not -1, and reaches back beyond its first chunk |
| FanOut.ListsStayDistinct | master/replication.py:55-116 | replica and stale lists never contain a server twice, over all runs |
| FanOut.ReplyCoversHealthy | master/server.py:164-175 | every location reply lists each healthy replica and the primary exactly once and nobody else; when the request granted the lease the primary is healthy |
| Leases.LeasesNeverOverlap | master/lease.py:12-38 | over all runs, the grants logged for a chunk carry 1, 2, 3, ..., no two leases overlap, and a live chunk's version is the number of its grants, at most one for each 60 seconds passed since the first |
| Replication.CoverMeaning | master/replication.py:28-33 | counting holders, queued repairs and queued requests together says exactly whether the missing copies are all accounted for |
| Replication.CoverageKeptIff | master/replication.py:55-116 | a step loses coverage of a chunk if and only if it is one of the listed give-ups and there was nothing to spare |
| Replication.RepairNeverForgotten | master/heartbeat.py:20-38 | over every run without a give-up for this chunk, whatever happens to others, the copies it lacks, compared with where it was first placed, are at most its pending requests plus the servers awaiting repair; with empty queues none is lacking |
| Replication.RepairFinishes | master/replication.py:35-53 | once no server fails and nothing is newly found stale, the passes that do not end with a failed clone are at most as many as the requests queued, the queues are empty if and only if they are as many, and then a chunk that never lapsed has every copy it was placed with |
| Replication.GivingUpForgets | master/replication.py:65-68 | a run in which one of three servers fails, nobody is there to copy to, and the chunk is left with two copies and nothing queued |
| Recovery.ReplayRecovers | master/server.py:45-86 | replaying the whole log of any run gives the visible namespace, the versions of all live chunks and, after one scan on each side, the whole namespace; it gives the chunk lists if and only if no chunk has been collected |
| Recovery.CheckpointTransparent | master/oplog.py:37-67 | a checkpoint at any point followed by the later log recovers as the whole log does; its chunk lists are the live ones if and only if nothing was collected since |
| CheckpointCrash.NothingIsCollected | master/garbage_collection.py:20-25 | as long as clients stay out of the hidden directory no chunk is ever collected, and replay rebuilds every chunk list |
| CheckpointCrash.CrashBeforeTruncation | master/oplog.py:51-57 | the new checkpoint with the whole old log behind it gives the visible namespace and the versions; a file's chunk list is right if and only if that log allocated nothing to it, each chunk it did allocate being listed twice |
| Restart.RunLogsHandles | master/server.py:142-147 | over any run the log written meanwhile gives out exactly the handles between the two counters, and the chunk table and the lease grants speak of no others |
| Restart.RestartLosesPlacement | master/server.py:45-86 | after a restart from any checkpoint and the later log, or the log alone, a request for a listed chunk is answered if and only if the checkpoint's table has it; the handle counter is right, the next handle unused, and handles conserved, each if and only if the later log allocated nothing |
| Incarnations.RestartsLoseNoNames | master/server.py:45-86 | over any number of incarnations, with checkpoints anywhere, complete or cut off before the log is emptied, a restart gives back at every moment exactly the visible namespace, after one scan on each side the whole namespace, and the chunk list of every name outside the hidden directory |
| Incarnations.NamespaceIsMap | master/oplog.py:16-67 | whatever crashes, also in the middle of a checkpoint, checkpoints, scans, failures and repairs happen, a file outside the hidden directory exists, with its creation time and nothing else recorded, if and only if the creations and deletions alone would have left it so |
| Cluster.NobodyIsAheadOfTheMaster | master/lease.py:23-25 | under any loss, duplication and reordering of messages and any chunkserver restarts, no server and no message carries a version of a live chunk beyond the master's |
| Cluster.MismatchMeansBehind | master/heartbeat.py:25-27 | so a report that disagrees with the master always carries a smaller version |
| Cluster.DeleteOrdersAreSafe | chunkserver/heartbeat.cpp:41-45 | no delete order ever in flight names a chunk some file lists |
| EndToEnd.LocationIsChain | master/server.py:164-175 | every location the master hands out in any run names nobody twice, so it is a chain a write can go along and a primary and secondaries an append can go through |
| EndToEnd.AcknowledgedOnHealthy | client/pipeline.py:34-74 | a write acknowledged along such a location is on the primary and on every replica that was healthy when the master answered |
| ChunkLists.ListHistory | master/server.py:125-147 | over every run a file's list of chunks only grows, by handles never given out before, and it stays the same if and only if no location request past its end, with leave to create and a server up, was made; once a scan has erased it, it lists nothing it listed before |
| ChunkLists.NeverCleared | master/garbage_collection.py:34-51 | no scan erases the list of a name outside the hidden directory |
| ChunkLists.LastChunkIff | master/server.py:122-136 | the last chunk stays the same if and only if nobody extended the file and no scan erased its list; otherwise there is none or it is one that was not there |
| EndToEnd.SameChunkIff | client/gfs_client.py:104-109 | the location for the next append names the same chunk if and only if nobody meanwhile extended the file and no scan erased its list, whatever its name |
| EndToEnd.AcceptedIff | client/gfs_client.py:100-132 | an append is given an offset if and only if the record is within the limit, there is a primary whose call goes through, and the 32-bit sum of its copy's size and the record is within the chunk size |
| EndToEnd.FullByReply | chunkserver/main.cpp:132-151 | once some append was answered that the chunk is full, the primary's copy has exactly 64 MB, then and after every later append and clone |
| EndToEnd.NobodyLarger | chunkserver/main.cpp:132-151 | when the primary's copy has 64 MB nobody's is larger, and a server has 64 MB if and only if it is equal to the primary |
| EndToEnd.RetryAcceptedIff | chunkserver/main.cpp:149 | when the last chunk is full, however the master goes on: the retry goes to the same chunk if and only if the list of chunks was left alone, and it is accepted if and only if it reaches a primary whose copy has room; on the same chunk that is never the old primary nor a replica that missed nothing, on a new and empty chunk it is always so |
| EndToEnd.AppendsRefusedForEver | client/gfs_client.py:124-130 | so while the list of chunks is left alone its primary accepts no further record that is not empty |
| EndToEnd.OneTooMany | chunkserver/main.cpp:132-151 | of equal records of any size as many as fit are answered one offset after the other, and the next is told to retry |
| EndToEnd.StuckFile | client/gfs_client.py:104-130 | from a new master, three heartbeats, one file with one chunk and a record of any size appended once more often than it fits: at the location the master gives for the next append no record that is not empty is accepted |
| EndToEnd.OvergrownIff | chunkserver/storage.cpp:36-50 | on one server, for any pushes, commits, appends and deletions in any order, a chunk is larger than 64 MB if and only if some commit wrote past its end and it was not deleted since |
| EndToEnd.AppendThrowsIff | chunkserver/main.cpp:133-136 | and the append handler throws if and only if that is so and the 32-bit sum of size and record is beyond 64 MB, which below 2 GiB it always is |
| LeaseRenewal.BeatDecides | master/heartbeat.py:20-38 | a heartbeat leaves its sender a healthy replica if and only if it reports the chunk with the master's version, or does not report it and the sender was one before; it changes no other server's standing, and with the current version it queues no repair |
| LeaseRenewal.SurvivesReportIff | master/lease.py:22-25 | after a renewal, under any loss, repetition and reordering of messages and any restarts, a server that reports the chunk is a healthy replica afterwards if and only if a push, commit or append with the new version reached it and nothing overwrote that |
| LeaseRenewal.ForgottenIff | master/replication.py:92-95 | a stale server with no repair queued becomes anything else in a step if and only if it reports the current version itself or a successful re-replication has it as its target |
| LeaseRenewal.StaysForgotten | master/heartbeat.py:28-31 | over every run without those two it stays stale and unqueued for as long as the chunk exists |
| LeaseRenewal.ReadLosesChunk | master/server.py:161-162 | a run from a new master in which one read, a minute after the grant, and three heartbeats leave a chunk placed on three servers with no replica, nothing queued and all three forgotten |
| Locating.AnswerKinds | master/server.py:114-152 | over every run of a new master each kind of answer has its exact cause, and a location names the chunk asked for by an index from the front, from the end or -1, or the one just allocated |
| Locating.NewChunkPlaced | master/server.py:131-147 | a request past the end puts a new chunk at the end of the list, on three different live servers or on all when there are fewer |
| Locating.LocatedVersion | master/server.py:168-175 | a location carries the number of leases granted for its chunk so far, the one this request granted included |
| Locating.LeaseGrantedIff | master/server.py:161-162 | a request grants a lease if and only if the chunk never had one or the last is a lease duration old, and some replica is healthy; the new primary is the first healthy replica, else it stays; no other chunk is granted anything |
| Locating.SecondariesInOrder | master/server.py:164-167 | the secondaries, along which a write is passed on, stand in the order of the replica list |
| Versions.ReportIsTrue | master/heartbeat.py:20 | the lists a chunkserver sends, paired by the master, are a report of every chunk it has with the version it remembers |
| Versions.StandingAfterReport | master/heartbeat.py:20-38 | in every run a server that reports what it has is a healthy replica of a chunk if and only if it remembers as many leases as were granted, and then no repair is queued for it |
| Versions.WrittenVersion | chunkserver/main.cpp:90-97 | an acknowledged write along a location leaves every server of the chain with the number of leases granted up to the answer |
| Versions.WrittenStaysHealthy | master/heartbeat.py:32-36 | so, while no lease is granted, each of them is healthy after its next report and nothing is queued for it |
| Versions.AppendStamps | chunkserver/main.cpp:123-184 | an append is a record if and only if it fits the primary's copy, and then the primary and each secondary that is reached and has room get the version; otherwise the primary's stays and secondaries that have room for the padding get 0; nothing else changes |
| Versions.AppendSeen | client/gfs_client.py:117-132 | after a record was appended along a location those servers are healthy after their next report while no lease is granted; after an answer that the chunk is full the secondaries that took the padding are not |
| Versions.DeletionLeaves | chunkserver/storage.cpp:62-66 | deleting a chunk takes its bytes and version and leaves buffer and checksums, which a chunk written again under the handle finds |
| Versions.CloneLeaves | chunkserver/main.cpp:192-230 | a push that lands gives the target the version and leaves its bytes, a commit that lands gives it the bytes, and in between they wait in the buffer under the one serial all clones use; nothing else changes; success means that both landed and were answered |
| Versions.CloneStaysHealthy | master/replication.py:69-80 | after a successful clone with the number of leases granted, the target's next report leaves it a healthy replica with nothing queued |
| Repairs.RepairOrdered | master/replication.py:87-107 | over every run, a stale repair is ordered if and only if a replica is healthy; the order goes to the primary if healthy, else to the first healthy replica, never to a stale server, and carries the number of leases granted |
| Repairs.JobOrdered | master/replication.py:55-77 | a re-replication is ordered if and only if the chunk has one or two replicas and some live server is none; the order goes to the first replica, for a live server that is none, with that version |
| Repairs.RepairMakesCurrent | master/replication.py:97-116 | in single-primary append runs a repair the master orders of a stale server, if it succeeds, leaves that server with the primary's bytes and the current version, and healthy after its next report |
| Repairs.ReportKeepsOrder | master/heartbeat.py:27-38 | a report moves its sender only, and to the end of the replica list |
| Repairs.StepKeepsOrder | master/replication.py:80 | no other step of any run changes the order of a replica list: replicas leave, or new ones come behind |
| Repairs.LeastHandleBlocks | master/replication.py:35-43 | while one chunk cannot be copied, no request for a chunk with a greater handle is taken, however the run goes on |
| Repairs.RepairsTakeTurns | master/replication.py:45-53 | a failed stale repair goes behind all others: the one with k before it is next after k passes, whether these succeed or fail |
| Failures.LiveIff | master/heartbeat.py:16-17 | in every run the live servers are those heard of since they were last declared dead, with the time of their last heartbeat |
| Failures.DeathIff | master/heartbeat.py:50-52 | a server can be declared dead if and only if it was heard of, last more than fifteen seconds ago |
| Failures.DeathLeaves | master/heartbeat.py:54-61 | a dead server leaves the replica lists and nothing else; it stays in stale lists and may stay primary; each chunk with fewer than three replicas left gets one more request of the high priority |
| Trash.SameHiddenNameIff | master/garbage_collection.py:20-22 | two deletions use the same hidden name if and only if they happen in the same second and the paths differ in nothing but slashes and underscores |
| Trash.TombstoneOverwritten | master/garbage_collection.py:23-25 | of two such files deleted in the same second only the later one is kept |
| Trash.DeletedFileKeptIff | master/garbage_collection.py:34-44 | a deleted file is gone from its name and kept under a hidden one, with its creation time and the time of its deletion, until the first scan more than ten seconds later |
| ReadSources.LocationIsRecent | client/cache.py:12-24 | a location used for a read was given by the master less than a minute before or just now, and the master is asked if and only if nothing so recent is cached |
| ReadSources.ReadKeepsGiven | client/gfs_client.py:50-57 | so it stays through any reads that start with an empty cache |
| ReadSources.PieceFails | client/gfs_client.py:56-86 | a piece fails for want of a location if and only if none is cached that is recent and the master does not answer; any other failure names the chunk |
| ReadSources.FirstGoodServes | client/gfs_client.py:61-86 | in a steady cluster the data is that of the first replica, the primary before the secondaries in their order, that answers well; the cached location goes if and only if a call to one before it failed |
| Sums.WriteRecords | chunkserver/main.cpp:90-92 | a write records the checksum of all its data for the block of 64 KB it starts in, on every server that commits it and on no other |
| Sums.SummedIsBlockIff | chunkserver/checksum.cpp:45-56 | for a write that starts with a block that is the block's checksum if and only if the data fills the block or reaches the end of the file within it |
| Sums.AppendRecords | chunkserver/main.cpp:157-158 | a record is recorded, at the primary and each secondary that is reached and has room, for the block the copy there ended in; padding at those secondaries only |
| Sums.CloneRecords | chunkserver/main.cpp:192-230 | a clone records the checksum of the whole copy for the first block of its target |
| Schedules.WriteScheduled | client/pipeline.py:28-74 | whatever calls of a write are lost, some sequence of message deliveries of the cluster does to the servers what the write does |
| Schedules.AppendScheduled | chunkserver/main.cpp:123-184 | so with an append that reaches the primary |
| Schedules.CloneScheduled | chunkserver/main.cpp:192-230 | and with a copy the master ordered, so that what holds over all schedules holds through every such call |
| Divergence.ReachedStayEqualIff | chunkserver/main.cpp:96-117 | equal replicas that the push reached are equal after a write that changes them if and only if the primary does not commit, or no commit call to them is lost and all but the last are heard |
| Divergence.ReportsDecide | chunkserver/heartbeat.cpp:28-35 | after true heartbeats of any servers in any order, a server that reported the chunk is a healthy replica if and only if it remembers the master's version, and then no repair was queued for it |
| Divergence.DivergenceUnseen | master/heartbeat.py:20-38 | after a write with any calls lost and such heartbeats, a server of the chain that reported is healthy if and only if the push reached it or it knew the version before, no repair is queued for it, and the bytes of those reached agree under just those losses |

## Left out

- MasterServer.MasterServicer.GetChunkLocations: a file recreated under a deleted name keeps the
  old chunk list, as in the source; the uncaught KeyError and IndexError are one reply.
- ChunkService.ChunkStorage.Append: the returned offset is not truncated to 32 bits, so files of
  2 GiB and more are not modelled as the source treats them; the 32-bit sum of the append handler
  is modelled, and `RecordAppend.SumsStaySmall` shows that append runs never get there.
- ChecksumStore.ChecksumStore.Update: block index -1, undefined behaviour in the source.
- EndToEnd.AppendThrowsIff: files of 4 GiB and more, whose size the source truncates before it
  computes the padding.
- PathLocks.NamespaceLockManager.AcquireForOperation: the method gives the order of acquisition;
  blocking is in the protocol of the same file, where a handler waits until the lock is free.
- File and chunk records are values in the store's maps, not objects: a worker that keeps a
  chunk object while a scan drops the chunk from the table is not modelled.
- Interleavings inside a handler, the two background workers' sleeps, thread start-up.
- Handle uniqueness across a restart, equal bytes from equal versions and reclaiming a deleted
  file's chunks, none of which the code provides.
- `write_checkpoint` has no caller; checkpoints are modelled as possible between any two steps.
- Torn log lines, JSON and pickle text, fsync, directories: the log is a sequence of records, a
  checkpoint is the metadata, disks are maps from handle to bytes.
- Dictionary and directory order and `random.sample`: any order and any choice.
- gRPC, protobuf, printing and `main`: calls with an outcome. No message size limit is modelled; by
  default gRPC receives at most 4 MB, so larger records, padding and clones would be lost calls.
- `evict_stale`, which nothing calls, and the RPCs declared but not implemented.
- A read's checksum loop, whose body is commented out (`chunkserver/main.cpp:35-38`).
