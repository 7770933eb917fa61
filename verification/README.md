# A verified model of My-smart-home's servers and libraries

My-smart-home glues together a small event server (`dserver`), a copy of the FastDFS storage system, PHP clients
and pages. Most of it is input and output. This project models the parts that are algorithms or protocols, in
Dafny 4.11, and proves what they promise over every input, every run and every interleaving.

| file | models |
|---|---|
| `WorkerPool.dfy` | the leader/follower worker pool over one-shot epoll, any number of workers, every interleaving |
| `Connection.dfy` | the input buffer of a connection, the connection state machine, and what a run of it promises |
| `OutputQueue.dfy` | the scatter/gather output queue: splitting, reallocation, partial sends |
| `Chain.dfy`, `HashTable.dfy` | the chained hash table on real linked lists, with failing allocations and the conflict-free capacity search |
| `Scheduler.dfy` | the sorted intrusive list of tasks, its rounds, re-sorting and relinking |
| `StorageTable.dfy`, `Reporters.dfy` | the table of storage servers, the merge of a tracker's list, and several reporter and sync threads at work on it at once |
| `SyncOld.dfy` | the "sync old data first" protocol between reporter threads |
| `Base64.dfy` | the Base64 codec with any alphabet, padding, line length and separator |
| `CrcTable.dfy`, `Checksums.dfy` | CRC-32 by table and bit by bit; the four incremental hashes of a received file |
| `Ssdb.dfy` | the length-prefixed framing of the SSDB client and its incremental parser |
| `Sequences.dfy` | laws of sequences that several modules use |
| `WriterCache.dfy` | the RedBean query-writer cache that is invalidated by the text of the last SQL statement |

`dafny verify dfyconfig.toml` checks everything.

State that the code updates in place is a class with fields and `modifies` clauses; protocols between threads are
state machines whose steps are single accesses to shared memory; loops are loops. Sockets, clocks, allocation, the
database and `qsort` are parameters: scripts of results, or functions that may be any. Lists that the code
reallocates are sequence fields, and a pointer into such a list is an index.

## What was found

Several properties one would like to have do not hold of the code as it is. For each there is a witness, and the exact
condition under which it does hold.

- Statuses of storage servers: whoever merges a tracker's list checks and writes a known server's status outside the
  lock. Reporter threads merge, and so do the sync threads they start, whenever these join a tracker (storage_sync.c:1015
  and 1117); sync threads also write the status of their own server without any lock. With two reporters, or with one
  reporter and one sync thread, a DELETED server can come back, by a merge (`Reporters.RaceRevives`) or by the sync
  thread's own write (`Reporters.SyncRevives`), and a reporter can take a server that a sync thread has just brought
  ONLINE down again (`Reporters.ReporterLowers`). The rules hold in every run, and merges keep DELETED in every run,
  exactly when there is no reporter, or a single one without sync threads (`Reporters.RulesIff`, `Reporters.DeletedIff`).
  As long as a single thread merges it never overwrites DELETED, whatever the others write (`Reporters.LoneWrites`).
- The test for room in that table is outside the lock too. No run writes past the two arrays if and only if there is no
  reporter, or a single one without sync threads (`Reporters.RoomIff`); `Reporters.RaceOverruns` gives the runs that do.
- The address of the source server is wiped out when a sync thread finds that it is the one of its deleted server
  (storage_sync.c:1867-1873), be it before or after everything has been settled. A thread that notifies a tracker after
  that sends an empty address (`SyncOld.TwoNotices`, `SyncOld.EmptyNotice`). All notices agree if and only if none or all
  of them took their address after the wipe, or it was empty anyway (`SyncOld.NoticesAgreeIff`). Once settled the time
  stamp never changes, and the address only to empty (`SyncOld.SettledForever`). Between the comparison and the write
  another answer can be copied, and then the address of a server that is not deleted is lost (`SyncOld.WipesAnother`);
  that is so if and only if the answer copied last names another server and has not been wiped out yet
  (`SyncOld.WipesAnotherIff`), and never if the comparison was made after the settlement
  (`SyncOld.WipesItsOwnOnceSettled`).
- The second pass of the merge walks the known servers in order of arrival. For an ascending list the merge sends back,
  beside the kept statuses, exactly the servers that the list lacks, if and only if the count test holds or no listed
  server comes after a known one with a greater address (`StorageTable.SentExactIff`); for known servers b, a, c and the
  list a, b it sends back a as well as c (`StorageTable.ArrivalOrder`). It never omits a missing one
  (`StorageTable.MissingSent`).
- diffServers has 32 slots. All that is sent fits if and only if the count test holds, or the statuses kept are no more
  than the servers that the walk passes and the slots that the table leaves free (`StorageTable.SentFitsIff`), so
  whenever what is sent is exact (`StorageTable.SentFits`). With a full table in descending order and 31 statuses that
  the merge keeps 63 entries are written (`StorageTable.SentOverruns`).
- A connection can be closed with complete lines in its buffer that are never dispatched: when a call of
  `try_read_network` reads a newline and then meets the end of the stream or an error, or when an answer cannot be sent
  while further lines wait (`Connection.FullBufferThenEnd`, `Connection.SendErrorLoses`). That is so if and only if one of
  these happens in a turn of the run (`Connection.LosesIff`), and a call of `try_read_network` meets the end after data
  exactly when each chunk before it ends where the buffer, doubled some number of times, ends (`Connection.ClosedIff`).
- `base64_get_encode_length` is exact for every message if and only if the line length is 0 or a positive multiple of 4,
  or separators are empty (`Base64.LengthExactIff`); `base64_init_ex` accepts other line lengths. Decoding undoes
  padded encoding for every message exactly when plus, slash and pad are distinct and not alphanumeric
  (`Base64.RoundTripIff`).
- `APHash_ex` restarts its parity at each call, so hashing in pieces of n bytes gives the hash of the file, for every
  file, if and only if n is even (`Checksums.ChunksIff`); the receive buffer of 512 KB is.
- The SSDB client takes a chunk `"0"` for a lost connection. A message is received, however it is cut, exactly
  when no chunk before its end is `"0"` or empty (`Ssdb.ReceiveIff`).
- The writer cache: the second of two queries is answered rightly from the first one's entry, whatever the database, if
  and only if they are one query, or their keys differ, or they never have one tag (`WriterCache.CollisionIff`); the
  identifiers `["1,2"]` and `["1","2"]` share tag and key (`WriterCache.SharedKeys`). A statement of the user's own
  leaves the next query right, whatever it does, if and only if the cache is off, it does not end in the `-- keep-cache`
  marker, or the tag's entry has another key or no rows (`WriterCache.StatementIff`); for a rollback or a statement
  without event the marker of the statement before it counts (`WriterCache.SilentIff`). `WriterCache.MarkedAfterWrite` and
  `WriterCache.SilentAfterQuery` are runs that go wrong.

## Model

| member | source | states |
|---|---|---|
| `WorkerPool.EveryDescriptorOwnedOnce` | dserver/thread.c:141-208 | in every state of every run of any number of workers each open descriptor is armed, or in exactly one slot of fired[0..nready), or in the hands of exactly one worker, never two of these; nothing closed is in those places |
| `WorkerPool.NoConnDrivenTwice` | dserver/thread.c:175-208 | no two workers are ever inside code that touches the same connection structure, the one that a registering worker is filling in included, and none of those is on the free list |
| `WorkerPool.NoBugBranch` | dserver/thread.c:141-208 | the "Bug: conn should not be NULL" branch is unreachable; add_event's assertion holds whenever evaluated; ADD never meets a registered and MOD never an unregistered descriptor; a worker closes the descriptor it was woken for |
| `WorkerPool.OneLeader` | dserver/thread.c:179-200 | at most one worker is between taking and releasing the leader mutex, so only one reads or writes fired and nready |
| `WorkerPool.BehaviourInv` | dserver/thread.c:141-208 | the invariant behind the four results above holds at every point of every run |
| `WorkerPool.NoWorkerStuck` | dserver/thread.c:141-208 | in no state of any run is a worker stuck: it can take a step, or it waits for the leader mutex and the worker that has it can |
| `WorkerPool.ExitsAtTests` | dserver/thread.c:141-208 | a worker leaves its loop only where daemon_quit is tested, before it takes the mutex or as the leader |
| `WorkerPool.StepInv` | dserver/ae_epoll.c:30-97 | every step of every worker, with any epoll call failing, keeps that invariant |
| `WorkerPool.PollKeepsFdInv` | dserver/ae_epoll.c:75-97 | aeApiPoll moves armed descriptors into distinct slots of fired and disarms them, keeping ownership unique |
| `WorkerPool.RegKeepsFdInv` | dserver/servernet.c:574-648 | accepting, adding and rejecting a descriptor keep ownership unique |
| `WorkerPool.EndKeepsFdInv` | dserver/servernet.c:691-713 | re-arming after a drive and closing keep ownership unique |
| `WorkerPool.AllocKeepsConnInv` | dserver/servernet.c:541-572 | a structure taken from the free list or the heap is in no other hands |
| `WorkerPool.EndKeepsConnInv` | dserver/servernet.c:691-713 | a closed connection's structure is freed or put on the free list once |
| `Connection.CommandsAppend` | dserver/servernet.c:181-206 | cutting a stream between two lines cuts its commands there |
| `Connection.CommandOfLine` | dserver/servernet.c:190-198 | a line ended by a newline or by carriage return and newline yields the text before it |
| `Connection.CommandUpToNul` | dserver/servernet.c:190-198 | a NUL in a line ends the text of its command |
| `Connection.LoneReturn` | dserver/servernet.c:190-198 | a line of a carriage return alone is a command of that character, because the test asks for a character before it |
| `Connection.StreamCommands` | dserver/servernet.c:181-206 | the commands found in any sequence of a client's lines, with either line ending, are the ones it sent |
| `Connection.TakeLine` | dserver/servernet.c:186-204 | taking the first line off the pending bytes adds exactly its command and leaves exactly the rest |
| `Connection.CutLine` | dserver/servernet.c:186-198 | the scan for the newline and the NUL written into the buffer find the command and leave the bytes after the line alone |
| `Connection.Conn.constructor` | dserver/servernet.c:574-640 | a new connection waits for input, has received nothing and is in order |
| `Connection.Conn.TryReadCommand` | dserver/servernet.c:181-209 | a command is taken exactly if a newline is pending; its text is dispatched, the bytes after the line stay pending, and an answer leads to the writing state |
| `Connection.FramedLine` | dserver/servernet.c:181-209 | taking a line keeps the frame: the bytes received are whole lines, whose commands have been dispatched, followed by the pending bytes |
| `Connection.Conn.Shrink` | dserver/servernet.c:724-739 | shrinking the buffer keeps the pending bytes; the size changes only above the high-water mark with little pending |
| `Connection.Conn.SetState` | dserver/servernet.c:776-785 | a change of state keeps the pending bytes |
| `Connection.Conn.MoveToFront` | dserver/servernet.c:223-227 | the memmove keeps the pending bytes |
| `Connection.Conn.MakeRoom` | dserver/servernet.c:229-242 | a full buffer is doubled, which keeps the pending bytes and leaves room for a read |
| `Connection.Conn.ReadInto` | dserver/servernet.c:245-253 | one read appends exactly the bytes read to the pending ones |
| `Connection.Conn.TryReadNetwork` | dserver/servernet.c:217-272 | the loop over reads, whatever they return, takes exactly the bytes that the specification reads off the script, leaves its rest, returns 0 exactly if nothing was read and nothing ended, and closes exactly at an end of stream or an error |
| `Connection.FillConserves` | dserver/servernet.c:217-272 | the bytes of the reads to come are the ones this call takes followed by those it leaves: nothing is lost, repeated or made up; the buffer holds them |
| `Connection.ClosedIff` | dserver/servernet.c:229-270 | a call meets the end of the stream or an error if and only if the next read does, or each chunk before it fills the buffer, doubled some number of times, to the last byte; it has then read exactly these chunks |
| `Connection.Conn.ReadState` | dserver/servernet.c:326-336 | a turn in the reading state dispatches a pending line if there is one and reads otherwise |
| `Connection.ReadTurnKeeps` | dserver/servernet.c:326-336 | such a turn keeps frame and conservation; it waits only with readable as the awaited readiness and no line pending |
| `Connection.Conn.WriteState` | dserver/servernet.c:437-470 | one transmit: completion goes on to reading or to where write_and_go says, a partial send stays in the state, a hard error closes, a soft error waits for writability in the same state; the input is left alone; RunBalanced says what that means for answers |
| `Connection.Conn.Drive` | dserver/servernet.c:275-479 | for any reads, sends and accepts drive_machine ends as the machine on values does, with the unread rest of the script; it keeps the promises of RunKeeps, complete lines stay undispatched at a close exactly as LosesIff says, and the sends and accepts it has used up balance with the answered commands as RunBalanced says |
| `Connection.RunKeeps` | dserver/servernet.c:275-479 | bytes received and bytes still to come are together those at the start; when drive_machine returns 1 ev_flags is the readiness its state waits for, and it waits for input only with no complete line pending; it returns 0 only closed |
| `Connection.RunBalanced` | dserver/servernet.c:275-479 | answered commands, and the answer in progress at the start, are as many as the sends used up that completed or failed and the answer still in progress at the end; a failed send closes; a send that would block is the last one used and leaves the connection waiting in a writing state, and it waits there only after one; likewise for accept and listening |
| `Connection.RunStaysOpen` | dserver/servernet.c:275-479 | without the end of the input, an error or a last answer the connection is never closed |
| `Connection.LastAnswer` | dserver/servernet.c:437-470 | when write_and_go is conn_closing nothing more is read or dispatched, and drive_machine waits to send or returns 0 |
| `Connection.WaitsAtOnce` | dserver/servernet.c:326-336 | with no line pending and nothing to read drive_machine returns 1 at once, with ev_flags readable and all else as it was |
| `Connection.ShrinksAfterAnswer` | dserver/servernet.c:724-785 | when an answer is complete and there is no more input a buffer above 8192 bytes with fewer than 2048 pending goes back to 2048, and any other keeps its size; the pending bytes stay |
| `Connection.WaitsWithAllDispatched` | dserver/servernet.c:275-479 | the commands dispatched are always a prefix of those of the bytes received, and all of them when it waits for input |
| `Connection.ChunksDoNotMatter` | dserver/servernet.c:275-479 | two inputs with the same bytes, read to the end, leave the same bytes received and the same commands dispatched, however they are cut and whatever sending does |
| `Connection.TurnAbandons` | dserver/servernet.c:326-470 | a turn closes the connection with a complete line pending if and only if it reads a newline and then meets the end of the stream or an error with no line pending before, or a transmit fails, or is the last, with a line pending |
| `Connection.LosesIff` | dserver/servernet.c:275-479 | drive_machine closes a connection that has received lines it never dispatches if and only if some turn of the run is of that kind |
| `Connection.FramedMeans` | dserver/servernet.c:181-209 | the commands of the whole stream are the ones dispatched followed by those in the pending bytes |
| `Connection.NewLines` | dserver/servernet.c:186-191 | more bytes bring more commands exactly if they bring a newline |
| `Connection.FullBufferThenEnd` | dserver/servernet.c:243-262 | a message that fills the buffer exactly, then the end of the stream: drive_machine returns 0 with the whole message received and no command dispatched, though it has some |
| `Connection.SendErrorLoses` | dserver/servernet.c:437-470 | two lines, the answer to the first cannot be sent: drive_machine returns 0 with only the first command dispatched |
| `OutputQueue.Queue.constructor` | dserver/servernet.c:590-640 | a new connection's queue is empty |
| `OutputQueue.Queue.Reset` | dserver/servernet.c:149-152 | a command starts with one empty message |
| `OutputQueue.Queue.AddMsghdr` | dserver/servernet.c:500-526 | opens a new message behind the others, growing the list when it is full, without moving queued bytes |
| `OutputQueue.Queue.EnsureIovSpace` | dserver/servernet.c:852-872 | after a reallocation msg_iov of message i is again the sum of the earlier iovlens; the queue is unchanged |
| `OutputQueue.PackedOffset` | dserver/servernet.c:864-868 | in a packed queue the start of message i is the sum of the earlier lengths |
| `OutputQueue.Queue.AddPiece` | dserver/servernet.c:882-927 | one turn of the split loop opens a new message exactly if the last has IOV_MAX pieces or is the first and has MAX_PAYLOAD_SIZE bytes, and appends all of the buffer, or as much as fills the first message to MAX_PAYLOAD_SIZE |
| `OutputQueue.Queue.AddIov` | dserver/servernet.c:882-929 | the split loop ends, and appends exactly the buffer's bytes; messages keep at most IOV_MAX pieces, and the first one at most MAX_PAYLOAD_SIZE bytes |
| `OutputQueue.SkipSent` | dserver/servernet.c:816-820 | the loop over completed iovecs drops exactly the pieces covered by the bytes sent |
| `OutputQueue.ConsumeBytes` | dserver/servernet.c:816-827 | dropping n sent bytes from a message leaves its bytes from n on |
| `OutputQueue.LayoutConsume` | dserver/servernet.c:816-827 | advancing one message leaves the others where they are |
| `OutputQueue.Queue.Advance` | dserver/servernet.c:816-827 | a partial send removes exactly the bytes sent from the current message and nothing from the others |
| `OutputQueue.Queue.Transmit` | dserver/servernet.c:796-844 | what was pending is what this call sent followed by what is still pending; COMPLETE exactly when no message is left; the four results as the return value of sendmsg demands |
| `OutputQueue.Queue.Drain` | dserver/servernet.c:437-470 | any sequence of partial sends, with a would-block anywhere between them, puts a prefix of the queued bytes on the wire; completion means all of them, once |
| `OutputQueue.Queue.Reply` | dserver/servernet.c:796-929 | for any buffers queued and any partial sends and would-blocks the bytes sent are a prefix of the buffers' bytes, and all of them on completion |
| `Chain.ChainList.constructor` | FastDFS/common/chain.c:16-31 | a new list is empty |
| `Chain.ChainList.AppendNode` | FastDFS/common/chain.c:90-119 | appends one element, keeping head, tail and links right |
| `Chain.ChainList.DeleteNodeEx` | FastDFS/common/chain.c:181-199 | removes exactly the given node, at the head, at the tail or between |
| `HashTable.FirstPrimeAbove` | FastDFS/common/hash.c:84-91 | finds the first prime of the table above n, or its end |
| `HashTable.AllocBuckets` | FastDFS/common/hash.c:50-68 | fresh, disjoint, empty chains |
| `HashTable.HashArray.Init` | FastDFS/common/hash.c:70-115 | error codes; on success an empty map whose capacity is the least prime above the request |
| `HashTable.HashArray.Find` | FastDFS/common/hash.c:450-473 | answers as the finite map does |
| `HashTable.HashArray.Insert` | FastDFS/common/hash.c:475-527 | updates the finite map at the key; returns 1 exactly for a new key; item_count follows; the table grows exactly when a new key makes item_count reach load_factor times the capacity and the allocation succeeds; a failed rehash loses nothing |
| `HashTable.HashArray.Delete` | FastDFS/common/hash.c:529-563 | removes the key from the finite map; returns whether it was there |
| `HashTable.HashArray.Walk` | FastDFS/common/hash.c:565-592 | visits each entry of the map once |
| `HashTable.HashArray.Rehash1` | FastDFS/common/hash.c:220-264 | redistributes the same entries over the new buckets; on failure the chains are untouched |
| `HashTable.HashArray.Rehash` | FastDFS/common/hash.c:266-311 | grows to the next prime keeping the map; a failed allocation restores capacity and buckets |
| `HashTable.HashArray.CountIsSize` | FastDFS/common/hash.c:475-563 | item_count is the size of the finite map |
| `HashTable.HashArray.ConflictCount` | FastDFS/common/hash.c:313-365 | counts the buckets that hold two different hash codes |
| `HashTable.HashArray.TryCapacity` | FastDFS/common/hash.c:407-420 | one round of the search: the map is kept; a capacity above every hash code has no conflict; a failure goes back |
| `HashTable.HashArray.SearchCapacity` | FastDFS/common/hash.c:399-420 | the search ends; every capacity tried is coprime to 2, 3, 5 and 7, they increase from the least one above the start and none between them is skipped; success means no conflict |
| `HashTable.HashArray.BestOp` | FastDFS/common/hash.c:367-426 | returns 0 exactly if nothing conflicted; 1 with no bucket of mixed hash codes; failures keep the map and fall back to the last size that worked; the capacities tried are, without a gap, the candidates from the suggested capacity on if that is above 2 and no smaller than the item count, else from twice the item count on |
| `HashTable.NextCandidate` | FastDFS/common/hash.c:401-405 | the next capacity coprime to 2, 3, 5 and 7, with none skipped |
| `HashTable.LargeIsConflictFree` | FastDFS/common/hash.c:367-426 | a capacity above every hash code has no conflict, which is why the search ends |
| `HashTable.NoConflicts` | FastDFS/common/hash.c:313-365 | no conflicts means that every bucket holds entries of one hash code |
| `HashTable.AbsSpread` | FastDFS/common/hash.c:220-264 | redistributing entries over any number of buckets keeps the finite map |
| `HashTable.SpreadOk` | FastDFS/common/hash.c:240-256 | after redistribution each entry sits in bucket hash_code % capacity and keys stay distinct |
| `HashTable.AbsLookup` | FastDFS/common/hash.c:428-448 | a key is in the map exactly if it is in the one bucket its hash code selects |
| `HashTable.AbsSize` | FastDFS/common/hash.c:475-592 | the size of the map is the number of entries in the buckets |
| `HashTable.RoomToGrow` | FastDFS/common/hash.c:15-48 | below 214748364 entries the prime table cannot run out |
| `HashTable.Perform` | FastDFS/common/hash.c:367-592 | one operation of any kind answers and acts as on the finite map; only an insert needs fewer than 214748364 entries |
| `HashTable.Replay` | FastDFS/common/hash.c:367-592 | any sequence of inserts, deletes, finds and best_ops, with bucket allocations failing anywhere, answers as the finite map does and ends with its contents and size |
| `Scheduler.InitEntries` | FastDFS/common/sched_thread.c:25-96 | ENOENT for no entries, EINVAL at the first interval that is not positive, else every first call time set |
| `Scheduler.FirstCallWindow` | FastDFS/common/sched_thread.c:60-80 | a time-based first call is congruent to its base; it lies in (now, now+interval] if and only if the base is not in the future or is on the grid of now |
| `Scheduler.BaseHasPassed` | FastDFS/common/sched_thread.c:60-76 | the computed base is never in the future and less than two days back, whatever offsets from UTC local time has now and then, and has the wanted hour and minute at one of them; with one offset it is the last such moment |
| `Scheduler.Schedule.MakeChain` | FastDFS/common/sched_thread.c:98-112 | the list visits every slot once, in order of next_call_time, from the first to the last, whose next is NULL |
| `Scheduler.Execute` | FastDFS/common/sched_thread.c:154-166 | the tasks run are a prefix of the list, all due, and each is next due its interval after now; it stops at the first that is not due, unless the flag stopped it |
| `Scheduler.DueExactly` | FastDFS/common/sched_thread.c:154-166 | the tasks run are exactly the due ones, because the list is sorted and holds every slot |
| `Scheduler.FindPlace` | FastDFS/common/sched_thread.c:194-201 | finds the place before the first entry that is not earlier |
| `Scheduler.RelinkOne` | FastDFS/common/sched_thread.c:184-215 | one executed entry is linked in where it belongs, at the head, at the tail or between |
| `Scheduler.RelinkStep` | FastDFS/common/sched_thread.c:184-215 | one turn keeps the list linked and sorted and the rest of the prefix attached |
| `Scheduler.RelinkAll` | FastDFS/common/sched_thread.c:182-216 | the executed prefix is relinked into a sorted list of all entries |
| `Scheduler.StartRelinking` | FastDFS/common/sched_thread.c:182-183 | after any prefix has run the rest of the list is still linked and sorted |
| `Scheduler.Schedule.Repair` | FastDFS/common/sched_thread.c:168-216 | re-sorting and relinking both restore the list |
| `Scheduler.Schedule.Round` | FastDFS/common/sched_thread.c:140-217 | after a round the list from pHead holds every entry once, sorted, ending at pTail with NULL; only the tasks run changed, each to now plus its interval; unless stopped, the tasks run are exactly the due ones and every next call is later than now |
| `Scheduler.Schedule.Start` | FastDFS/common/sched_thread.c:114-139 | error codes, or a sorted list of the same tasks: one without a base time is first due at now plus its interval, one with a base time on the grid of its base, in the interval after now, or in the next one if the base is in the future; all are later than now |
| `Scheduler.Schedule.Run` | FastDFS/common/sched_thread.c:140-217 | any number of rounds lose, duplicate or alter no task, and leave every next call after the last round's time; the tasks run in each round are exactly those that the history of each task alone makes due at that time, which NextRun and FirstRun describe |
| `Scheduler.NextRun` | FastDFS/common/sched_thread.c:154-166 | after a run at time t a task runs next in the first later round that sees the clock at t plus its interval or beyond, and not before, whatever the clock does |
| `Scheduler.FirstRun` | FastDFS/common/sched_thread.c:154-166 | its first run is in the first round that sees the clock at its first call time or beyond |
| `Scheduler.TasksSame` | FastDFS/common/sched_thread.c:98-104 | rearranging the entries rearranges the tasks |
| `StorageTable.InsertIntoSorted` | FastDFS/storage/tracker_client_thread.c:371-404 | inserts the pointer between lower and higher addresses exactly if the address is new; for a duplicate the live part of the index is restored; nothing beyond one more slot changes |
| `StorageTable.Restore` | FastDFS/storage/tracker_client_thread.c:392-399 | the restoring loop takes the shift back |
| `StorageTable.InsertKeepsTable` | FastDFS/storage/tracker_client_thread.c:371-404 | the index stays strictly ascending and a permutation of all servers |
| `StorageTable.TableDistinct` | FastDFS/storage/tracker_client_thread.c:371-404 | no address occurs twice among the known servers |
| `StorageTable.Search` | FastDFS/storage/tracker_client_thread.c:498-500 | the binary search finds a server exactly if it is known |
| `StorageTable.OverwriteAllowed` | FastDFS/storage/tracker_client_thread.c:503-545 | a status is overwritten or kept exactly by the rules: DELETED stays, nothing goes down to WAIT_SYNC or SYNCING |
| `StorageTable.MergeEvolves` | FastDFS/storage/tracker_client_thread.c:494-600 | a merge forgets, moves and renames no server, changes no deleted one, keeps addresses distinct |
| `StorageTable.MergedStatus` | FastDFS/storage/tracker_client_thread.c:501-546 | after the whole merge a known server that is listed has the listed status exactly if it is to be taken over: never over DELETED, never down to WAIT_SYNC or SYNCING, and not DELETED over NONE; otherwise, or unlisted, its own |
| `StorageTable.NewcomersAdded` | FastDFS/storage/tracker_client_thread.c:547-599 | behind the known servers come the unknown ones of the list that are not DELETED, as listed and in its order, as far as there is room |
| `StorageTable.KeptExactly` | FastDFS/storage/tracker_client_thread.c:501-530 | the first pass puts into diffServers exactly the known servers whose status is newer than listed, with their own status |
| `StorageTable.StartsWhen` | FastDFS/storage/tracker_client_thread.c:531-590 | entry i of the list starts a sync thread exactly if, going by the servers known before the merge, it adds a server for which there is room or takes one over that was NONE |
| `StorageTable.MergeOneEvolves` | FastDFS/storage/tracker_client_thread.c:496-599 | one entry changes statuses only by the rules and adds at most itself |
| `StorageTable.ServerTable.MergeEntry` | FastDFS/storage/tracker_client_thread.c:496-599 | one turn of the first pass: the table, its index, the count of ignored deleted servers and the kept statuses; the result of starting a sync thread is returned if it is an error; MergedStatus says what the turns come to |
| `StorageTable.ServerTable.FirstPass` | FastDFS/storage/tracker_client_thread.c:494-600 | the pass merges the entries in order, and stops at the first sync thread that cannot be started, with the entries so far merged |
| `StorageTable.ServerTable.Add` | FastDFS/storage/tracker_client_thread.c:555-580 | the locked insertion adds the server and keeps the table valid |
| `StorageTable.CountAfter` | FastDFS/storage/tracker_client_thread.c:494-602 | known plus ignored plus common servers are known-before plus listed |
| `StorageTable.CountTest` | FastDFS/storage/tracker_client_thread.c:602-611 | with distinct addresses and room, g_storage_count + nDeletedCount == server_count holds if and only if every server known before is listed |
| `StorageTable.WalkLists` | FastDFS/storage/tracker_client_thread.c:613-665 | the two cursors compute the walk |
| `StorageTable.WalkFindsMissing` | FastDFS/storage/tracker_client_thread.c:613-665 | no known server that is missing from the list is omitted, in whatever order the two are |
| `StorageTable.WalkOnlyKnown` | FastDFS/storage/tracker_client_thread.c:613-665 | nothing but known servers other than NONE ones is added |
| `StorageTable.WalkExactIff` | FastDFS/storage/tracker_client_thread.c:613-665 | for an ascending list the walk adds exactly the missing ones if and only if no listed server comes after one with a greater address |
| `StorageTable.SentExactIff` | FastDFS/storage/tracker_client_thread.c:602-668 | for the whole merge: what follows the kept statuses is exactly the missing servers if and only if the count test holds or no listed server is overtaken |
| `StorageTable.WalkExact` | FastDFS/storage/tracker_client_thread.c:613-665 | when both are ascending exactly the missing servers are added |
| `StorageTable.ArrivalOrder` | FastDFS/storage/tracker_client_thread.c:602-668 | known b, a, c and listed a, b: the count test fails, and a, which is listed, is sent back beside c |
| `StorageTable.MissingSent` | FastDFS/storage/tracker_client_thread.c:602-668 | whichever way the count test goes, every known server the tracker lacks is sent to it |
| `StorageTable.ServerTable.Merge` | FastDFS/storage/tracker_client_thread.c:494-668 | for a list without repeated addresses: a known server that is listed ends with the listed status exactly if that may be taken over, else with its own; an unlisted one is unchanged; the newcomers that are not DELETED follow in the order of the list as far as there is room; each status newer than listed is sent back as it is, and every missing server; nothing else than a known server as it is; the result is 0 exactly if each sync thread that a server needs can be started. For any list: the table stays valid, what is sent is the kept statuses and, unless the count test holds, the walk, which fits the 32 slots of diffServers as SentFits says; an early return sends nothing |
| `StorageTable.SentFits` | FastDFS/storage/tracker_client_thread.c:482-668 | for an ascending list, if the count test holds or no listed server is overtaken, no more is sent than there are known servers, so at most 32 entries |
| `StorageTable.SentFitsIff` | FastDFS/storage/tracker_client_thread.c:482-668 | for any list of distinct addresses, all that is sent fits the 32 slots if and only if the count test holds, or the statuses kept are no more than the servers the walk passes and the free slots of the table |
| `StorageTable.SentOverruns` | FastDFS/storage/tracker_client_thread.c:482-668 | 32 servers known in descending order and the 31 lowest listed with an older status: 63 entries |
| `Reporters.RunKeepsTable` | FastDFS/storage/tracker_client_thread.c:494-600 | in every run of any number of reporter and sync threads, all of which merge, until a write past the arrays, the index is a strictly ascending permutation of the known servers, and no server is forgotten |
| `Reporters.NeverAddsDeleted` | FastDFS/storage/tracker_client_thread.c:547-580 | in no run is a server added as DELETED |
| `Reporters.StartsForLive` | FastDFS/storage/tracker_client_thread.c:531-590 | a step that starts a sync thread starts one, for a known server that is neither DELETED nor NONE, and changes no status |
| `Reporters.StepKeepsInv` | FastDFS/storage/tracker_client_thread.c:496-599 | every step of every merge, by a reporter or a sync thread, keeps it, a lookup that misses during an insertion included |
| `Reporters.SyncKeepsInv` | FastDFS/storage/storage_sync.c:1716-1878 | so does every write of a sync thread outside its merges: WAIT_SYNC to SYNCING, SYNCING to ONLINE, DELETED to NONE |
| `Reporters.RoomIff` | FastDFS/storage/tracker_client_thread.c:553-580 | no run of n reporters and up to m sync threads writes past the 32 slots of the two arrays if and only if n is 0, or n is 1 and m is 0 |
| `Reporters.LoneHasRoom` | FastDFS/storage/tracker_client_thread.c:553-580 | nor does any run in which a single thread merges |
| `Reporters.RaceOverruns` | FastDFS/storage/storage_global.c:31-32 | with two reporters, or with one and a sync thread, there is a run that does |
| `Reporters.AloneKeepsRules` | FastDFS/storage/tracker_client_thread.c:501-546 | with one reporter and no sync thread DELETED never changes, and nothing goes down to WAIT_SYNC or SYNCING, in any run |
| `Reporters.LoneWrites` | FastDFS/storage/tracker_client_thread.c:501-546 | in a run in which a single thread merges it never overwrites DELETED, whatever sync threads write, and breaks a rule only by taking a server that a sync thread has moved on, or given up, down to WAIT_SYNC or SYNCING |
| `Reporters.RaceRevives` | FastDFS/storage/storage_sync.c:1010-1119 | with two reporters, or with one and a sync thread, there is a run in which a merge brings a deleted server back |
| `Reporters.DeletedIff` | FastDFS/storage/tracker_client_thread.c:501-546 | no merge overwrites DELETED in any run if and only if n is 0, or n is 1 and m is 0 |
| `Reporters.SyncRevives` | FastDFS/storage/storage_sync.c:1716-1721 | so does a sync thread's own write, with one reporter |
| `Reporters.SyncGivesUp` | FastDFS/storage/storage_sync.c:1867-1878 | there is a run in which a sync thread finds its server DELETED, makes it NONE and ends |
| `Reporters.ComesBack` | FastDFS/storage/tracker_client_thread.c:531-546 | and one in which such a server is listed again, takes the listed status and gets a new sync thread |
| `Reporters.ReporterLowers` | FastDFS/storage/tracker_client_thread.c:501-546 | with a reporter and a sync thread a server goes from ONLINE down to SYNCING |
| `Reporters.RulesIff` | FastDFS/storage/tracker_client_thread.c:501-546 | the rules hold in every run of n reporters and up to m sync threads if and only if n is 0, or n is 1 and m is 0 |
| `SyncOld.SettledForever` | FastDFS/storage/tracker_client_thread.c:218-265 | once g_sync_old_done is true it stays true, no further answer is taken, the timestamp never changes, and the address changes at most once and only to empty |
| `SyncOld.SettledOnce` | FastDFS/storage/tracker_client_thread.c:232-250 | g_sync_old_done goes from false to true at most once |
| `SyncOld.ReportsAfterNotice` | FastDFS/storage/tracker_client_thread.c:268-280 | no thread reports before a notice has been sent |
| `SyncOld.NoThreadStuck` | FastDFS/storage/tracker_client_thread.c:122-280 | in no run is a thread stuck: it can take a step, or it waits for the lock and the thread that has it can |
| `SyncOld.SecondAnswerCounts` | FastDFS/storage/tracker_client_thread.c:863-883 | a run in which an answer is received whose receipt cannot be confirmed: it is asked for again and the second answer is the one settled |
| `SyncOld.EmptyAnswerSettles` | FastDFS/storage/tracker_client_thread.c:817-883 | a run in which an empty answer settles the matter with what was known at the start |
| `SyncOld.LocalImpliesGlobal` | FastDFS/storage/tracker_client_thread.c:122-265 | a thread's sync_old_done implies the shared one |
| `SyncOld.NoticesCarryThePair` | FastDFS/storage/tracker_client_thread.c:885-914 | no SYNC_NOTIFY goes out before the matter is settled; each carries the untorn pair that was settled, the last answer received or what was known at the start, or that pair with its address wiped out |
| `SyncOld.NoticesAgreeIff` | FastDFS/storage/tracker_client_thread.c:885-914 | all notices sent so far agree if and only if none or all of them took their address after the wipe, or the address settled is empty |
| `SyncOld.TwoNotices` | FastDFS/storage/storage_sync.c:1867-1873 | a run in which two notices differ |
| `SyncOld.EmptyNotice` | FastDFS/storage/storage_sync.c:1867-1873 | a run in which the wipe comes first and the only notice has no address |
| `SyncOld.WipesItsOwn` | FastDFS/storage/storage_sync.c:1870-1872 | a sync thread empties the address it compared, or an empty one, unless an answer has been copied since |
| `SyncOld.WipesItsOwnOnceSettled` | FastDFS/storage/storage_sync.c:1870-1872 | so always if it compared after the matter was settled |
| `SyncOld.WipesAnotherIff` | FastDFS/storage/storage_sync.c:1870-1872 | it empties another server's address if and only if the answer copied last names that server and has not been wiped out |
| `SyncOld.WipesAnother` | FastDFS/storage/tracker_client_thread.c:863-866 | a run in which it does |
| `SyncOld.MatchKeepsInv` | FastDFS/storage/storage_sync.c:1870-1870 | a sync thread's comparison keeps the invariant of the protocol, at any time |
| `SyncOld.WipeKeepsInv` | FastDFS/storage/storage_sync.c:1872-1872 | so does its write, however much later |
| `SyncOld.RunInv` | FastDFS/storage/tracker_client_thread.c:218-280 | the invariant of the protocol holds in every interleaving |
| `SyncOld.StepKeepsInv` | FastDFS/storage/tracker_client_thread.c:817-883 | every step keeps it, whatever sockets and the ini file answer |
| `Base64.BuildTables` | FastDFS/common/fdfs_base64.c:83-114 | the loops fill both tables: values 0 to 61 have the 62 letters and digits in the order A-Z, a-z, 0-9, then plus and slash; for the other table the last writer of a character wins, and the pad over all |
| `Base64.GoodInverts` | FastDFS/common/fdfs_base64.c:83-114 | every value is read back from its character if and only if plus, slash and pad are distinct and not alphanumeric |
| `Base64.Codec.InitEx` | FastDFS/common/fdfs_base64.c:73-115 | the codec is set up for the alphabet; the default separator is ignored by the decoder unless it is one of the three characters |
| `Base64.Codec.SetLineLength` | FastDFS/common/fdfs_base64.c:55-58 | the nearest multiple of 4 towards zero |
| `Base64.Codec.EncodeGroup` | FastDFS/common/fdfs_base64.c:199-235 | one group: a line break exactly when the next four characters do not fit, then the four characters of three bytes |
| `Base64.Codec.EncodeWhole` | FastDFS/common/fdfs_base64.c:195-237 | the loop over whole groups writes the data of the bytes so far, cut into lines |
| `Base64.Codec.Encode` | FastDFS/common/fdfs_base64.c:145-274 | the bytes are read as one big number, and the output is its digits to the base 64, spelled in A-Z, a-z, 0-9, plus and slash and padded or not, as section 4 of RFC 4648 has it, cut into lines for every line length |
| `Base64.DataEncodes` | FastDFS/common/fdfs_base64.c:145-274 | the encoding of any bytes, built from groups of three, is that spelling of one big number |
| `Base64.EncodesUnique` | FastDFS/common/fdfs_base64.c:145-274 | that describes one output only |
| `Base64.Codec.Finish` | FastDFS/common/fdfs_base64.c:243-271 | the end of the last group is overwritten by pads or cut off |
| `Base64.Codec.Decode` | FastDFS/common/fdfs_base64.c:328-410 | the four-character cycle computes the decoding: nothing if characters are left over, else the bytes less one for each pad |
| `Base64.Codec.DecodeAuto` | FastDFS/common/fdfs_base64.c:276-321 | decodes the input padded out to a multiple of 4 |
| `Base64.RoundTrip` | FastDFS/common/fdfs_base64.c:145-410 | decoding inverts padded encoding for every byte sequence, every line length and every separator outside alphabet and pad |
| `Base64.RoundTripIff` | FastDFS/common/fdfs_base64.c:73-410 | without line breaks that holds for every message if and only if the alphabet is good |
| `Base64.AutoRoundTrip` | FastDFS/common/fdfs_base64.c:276-321 | base64_decode_auto inverts the padded and the unpadded encoding without line breaks |
| `Base64.Codec.GetEncodeLength` | FastDFS/common/fdfs_base64.c:117-136 | the announced length, for every line length, with the truncating division of C |
| `Base64.LengthExact` | FastDFS/common/fdfs_base64.c:117-136 | exact for every message when the line length is 0 or a multiple of 4, separators included |
| `Base64.LengthExactIff` | FastDFS/common/fdfs_base64.c:117-136 | exact for every message if and only if the line length is 0 or a positive multiple of 4, or separators are empty |
| `CrcTable.TableIsShift8` | FastDFS/common/hash.c:921-986 | all 256 entries of crc_table are the remainders of their index for polynomial 0xEDB88320, reflected |
| `Checksums.ShiftXor` | FastDFS/common/hash.c:921-986 | the shift register is linear |
| `Checksums.TableStepIsSerial` | FastDFS/common/hash.c:988-998 | one table step is eight steps of the register fed with the byte's bits, lowest first |
| `Checksums.Crc32Ex` | FastDFS/common/hash.c:988-1013 | the table-driven loop computes the bit-serial CRC of every message, from every initial value |
| `Checksums.ElfHashEx` | FastDFS/common/hash.c:677-708 | the loop folds the ELF step over the message; ElfFolds and ElfIsBase16 say what that is |
| `Checksums.ApHashEx` | FastDFS/common/hash.c:818-852 | the loop folds the AP step, even and odd turns counted from the start of the call |
| `Checksums.Time33HashEx` | FastDFS/common/hash.c:765-789 | the loop computes the hash of Time33IsBase33, with 32-bit wrap-around |
| `Checksums.Time33IsBase33` | FastDFS/common/hash.c:765-789 | the hash is, modulo 2^32, the initial value times 33^n plus the number whose n digits to the base 33 are the bytes |
| `Checksums.ElfSmall` | FastDFS/common/hash.c:677-708 | the ELF hash of at least one byte is below 2^28 |
| `Checksums.ElfFolds` | FastDFS/common/hash.c:677-708 | one step, from any value: the upper four bits of 16 times the value plus the byte go into bits 4 to 7 by exclusive or |
| `Checksums.ElfIsBase16` | FastDFS/common/hash.c:677-708 | up to five bytes hash to the number whose digits to the base 16 they are |
| `Checksums.CheckValues` | FastDFS/common/hash.c:677-1013 | the four codes of a file of the digits 1 to 9; the first is the check value 0xCBF43926 of CRC-32 |
| `Checksums.CrcAppend` | FastDFS/common/hash.c:1007-1013 | continuing the CRC over a second piece is the CRC of both |
| `Checksums.ElfAppend` | FastDFS/common/hash.c:704-708 | the same for the ELF hash |
| `Checksums.Time33Append` | FastDFS/common/hash.c:785-789 | the same for the times-33 hash |
| `Checksums.ApAppend` | FastDFS/common/hash.c:848-852 | the same for the AP hash after a first piece of even length |
| `Checksums.ChunksIff` | FastDFS/common/hash.c:818-852 | in pieces of n bytes the AP hash of every file is right if and only if n is even |
| `Checksums.CalcHashCodes` | FastDFS/common/hash.h:111-115 | all four codes continue over the next piece |
| `Checksums.RecvFile` | FastDFS/common/sockopt.c:594-668 | on success the file is what was sent and the four codes are the one-shot hashes of the whole file; otherwise the error is that of the first call that fails, and there is one exactly if some call fails |
| `Ssdb.Send` | ClientWeb/include/ssdb.class.php:681-688 | what send writes is the frame of the message; an empty message reads as two |
| `Ssdb.LengthLine` | ClientWeb/include/ssdb.class.php:745-752 | a length line is read back as the length |
| `Ssdb.TurnLoose` | ClientWeb/include/ssdb.class.php:740-752 | blanks around a length and a plus sign before it make no difference |
| `Ssdb.TrimBlanks` | ClientWeb/include/ssdb.class.php:745-747 | trim takes exactly the blanks off both ends |
| `Ssdb.NegativeLength` | ClientWeb/include/ssdb.class.php:745-752 | a negative length spoils the message |
| `Ssdb.FrameExample` | ClientWeb/include/ssdb.class.php:681-688 | the bytes on the wire for any two parts of 3 and 10 bytes |
| `Ssdb.ParseFrame` | ClientWeb/include/ssdb.class.php:733-773 | parsing a frame followed by any tail gives the message and leaves exactly the tail |
| `Ssdb.ParsePrefix` | ClientWeb/include/ssdb.class.php:733-773 | no proper prefix of a frame is taken for a message |
| `Ssdb.TurnAt` | ClientWeb/include/ssdb.class.php:740-770 | one turn of the parser's loop on cursors is one turn on the remaining bytes |
| `Ssdb.Client.ParseBuffer` | ClientWeb/include/ssdb.class.php:733-773 | the loop finds what the buffer holds; recv_buf changes only when a message is complete |
| `Ssdb.Client.Recv` | ClientWeb/include/ssdb.class.php:711-731 | recv reads chunks until a message is complete or the connection counts as lost |
| `Ssdb.ReceiveIff` | ClientWeb/include/ssdb.class.php:711-731 | however the stream is cut, the message is received and the rest kept if and only if no chunk before its end is "0" or empty; otherwise the connection counts as lost |
| `Ssdb.ReceiveMany` | ClientWeb/include/ssdb.class.php:711-773 | the messages of a stream do not depend on how accepted chunks cut it |
| `WriterCache.ImplodeInjective` | weixinuser/rb.php:3407-3461 | identifiers without commas can be read back from their imploded form |
| `WriterCache.SameKeySameQuery` | weixinuser/rb.php:3371-3527 | two such queries with the same tag and key are the same query, if no link table has the name of a related type |
| `WriterCache.QuotedDiffers` | weixinuser/rb.php:3207-3309 | none has: esc quotes the link table and lets only word characters through as a type |
| `WriterCache.SharedKeys` | weixinuser/rb.php:3407-3461 | identifiers with commas are not told apart; queryRecordRelated and queryRecordLinks share their keys, but not their tags |
| `WriterCache.Writer.GetCached` | weixinuser/rb.php:2982-2997 | flushes unless the last SQL ends in its first marker; else finds the entry of the tag if its key fits |
| `WriterCache.Writer.QueryRecord` | weixinuser/rb.php:3371-3396 | returns what the database would return now, and keeps the cache right, unless it is answered from an entry older than the database |
| `WriterCache.Writer.QueryRecordRelated` | weixinuser/rb.php:3401-3450 | the same, for identifiers without commas and a quoted link table |
| `WriterCache.Writer.QueryRecordLinks` | weixinuser/rb.php:3455-3498 | the same, for identifiers without commas |
| `WriterCache.Writer.QueryRecordLink` | weixinuser/rb.php:3503-3527 | the same |
| `WriterCache.Writer.Execute` | weixinuser/rb.php:2321-2329 | a statement, with or without event, outdates every entry if it changes the database, and keeps the rest right |
| `WriterCache.Writer.SetFlag` | weixinuser/rb.php:3731-3746 | flushes and toggles; the cache is right afterwards |
| `WriterCache.AskFresh` | weixinuser/rb.php:2982-3019 | if every entry that is not outdated is current, a query that does not hit an outdated one keeps that and returns fresh rows |
| `WriterCache.PerformKeeps` | weixinuser/rb.php:2321-2472 | so does any statement, with or without event or marker, any rollback and any toggle |
| `WriterCache.CarefulAgrees` | weixinuser/rb.php:2982-3019 | after any run of queries, statements, rollbacks and toggles a query returns what the database would return at that moment, if marked statements, and silent changes after a marked one, leave the database as it is or find the cache empty, and marked statements find no entry outdated |
| `WriterCache.SecondAskHits` | weixinuser/rb.php:2982-3019 | a query with rows that is asked again at once is answered from the cache |
| `WriterCache.StatementIff` | weixinuser/rb.php:2321-2329 | whatever a statement does, the query asked next is right if and only if the cache is off, the statement does not end in the marker, or the entry of the query's tag has another key or no rows |
| `WriterCache.SilentIff` | weixinuser/rb.php:2321-2472 | for a rollback or a statement without event the same, with the marker of the statement before it |
| `WriterCache.MarkedAfterWrite` | weixinuser/rb.php:2984-2990 | a marked statement after a write makes the writer return stale rows |
| `WriterCache.SilentAfterQuery` | weixinuser/rb.php:2466-2472 | so does a rollback right after a cached query |
| `WriterCache.MarkedAfterSelect` | weixinuser/rb.php:2984-2990 | a marked SELECT after an unmarked one does no harm |
| `WriterCache.MarkedTwice` | weixinuser/rb.php:2984-2990 | a statement that has the marker at its end and before it does not keep the cache |
| `WriterCache.CollisionIff` | weixinuser/rb.php:3014-3019 | the second of two queries is answered rightly, whatever the database, if and only if they are one query, or their keys differ, or they never have one tag |

## Left out

- dserver: conn_nread, conn_swallow and item handling are not modelled, because no command enters those states.
- dserver: the EMFILE branch of accept, out-of-memory paths and the select and kqueue back ends are not modelled.
- dserver: which commands process_command answers is a parameter; tokenizing and the replies' texts are not modelled.
- Connection.Conn.Drive: a transmit is one of its four results; the queue behind it is modelled in OutputQueue.
- OutputQueue: allocation succeeds.
- Chain: only the operations that the hash table uses; insertNodeAsc, deleteNode and the rest would add easy members.
- HashTable: nodes allocate, and a HashData block is a value in its node; only bucket-array allocation may fail, as in the promise of the code. Memory-size accounting and the walk callback's error are not modelled.
- HashTable.Replay: each insert meets fewer than 214748364 entries, below which the prime table cannot run out.
- Scheduler: the comparison function of qsort subtracts times into an int; times are taken to be close enough for that. Sleeping is not modelled.
- Scheduler.InitEntries: localtime_r and mktime are a parameter; BaseHasPassed covers the case that local time is UTC plus an offset, which may differ between now and the base.
- StorageTable: an address is its rank in the order of strcmp. The result of starting a sync thread is a parameter.
- StorageTable.CountTest: requires distinct addresses in the list and room in the table.
- Reporters: the several reads of a status in one decision are one step, and so is the locked insertion, except that a lookup may miss a server during it. What happens after a write past the arrays is not modelled.
- Reporters.RoomIff: how far past the arrays several merging threads can write is not stated, because memory beyond them is not modelled.
- SyncOld: pthread_mutex_lock does not fail.
- SyncOld.NoticesCarryThePair: that all notices carry the same pair is not promised, because the address is wiped out when its server is deleted; NoticesAgreeIff says when they do.
- Base64: separators longer than 15 characters and decode_auto on input with line breaks are not modelled.
- Checksums: the other hash functions of hash.c are folds like the ones modelled and would add easy members.
- Ssdb: a negative length ends the parse with an outcome of its own; PHP's behaviour for it, for lengths beyond its integers and for numbers in scientific notation is not modelled. Neither is fwrite's retry loop.
- WriterCache: the SQL text of the queries and the exception for names that are not identifiers are not modelled; json_encode is taken to be injective.
- Logging, configuration, PHP pages, the mobile clients, storage and tracker request marshalling, and credis are not modelled.
