# A model of parallel-ssh in Dafny

The parts of parallel-ssh that are hard to get right are the ones that run between network and
caller: a buffer shared by greenlets, lines rebuilt from reads that may be cut anywhere, nested
retries, recursive copies, a rendezvous between threads.  This project models them as they are
written and proves what they keep, for every input, every schedule and every run.

- `Lines` splits chunks into lines; `ReaderBuffer` is the buffer with its single cursor;
  `Wakeup` runs any number of greenlets on it; `OutputPipeline` puts channel reader, buffer and
  line splitter together, with interruptions.
- `Connect` is connecting with retries and handshakes, over any schedule of lookups, attempts
  and handshakes.
- `Writes` is the EAGAIN write loop and what uses it: uploads, the tunnel, shell commands.
- `Forwarder` is the two-queue rendezvous of the tunnel thread; `ChannelLocks` the two locks
  around channel reads and closes.
- `ClientCache` and `JoinOutput` belong to the parallel client.
- `Files` and `Paths` are file systems and path strings; `Upload` and `Download` copy trees
  over SFTP.
- `GitDescribe` reads and prints version descriptions.
- `Octets`, `Options` and `Distinct` are shared vocabulary.

Greenlets are cooperative: control moves only where the code sleeps, polls, waits or meets a
taken lock, so what lies between two such points is one step of a state machine, and a run is
any sequence of steps.  Code that updates objects or loops is a class or a method whose
contract gives its whole effect as a function of the old state; the theorems are about those
functions and machines.  The network, the SSH libraries and the file systems appear as
arguments: a schedule of outcomes, a script of reads, the answers of a far end, a map from
paths to nodes, a directory listing in any order.

`dafny verify dfyconfig.toml` checks everything.

## What to know about the code

Each of these is a theorem, with the exact condition where the property holds sometimes.  The
code is modelled as it is, also where its documentation says otherwise.

- Output can be "interrupted and resumed at any point" (README.rst:154), but what the
  generator held is lost: lossless if and only if nothing was held
  (`OutputPipeline.ResumptionLosslessIff`).
- A CR before an LF is dropped from a line unless a read ended between the two
  (`Lines.ChunkingIrrelevantIff`).
- A caller of the tunnel forwarder may get the port of another thread's server, if and only if
  ports are not taken in the order of the requests (`Forwarder.OwnPortsFromBegin`), and a caller
  waits for ever when a server fails to start (`Forwarder.StuckIff`).
- One shell command lands inside another exactly when octets are taken from a writer while
  another one is half through (`Writes.GroupedIff`).
- `join` reports an output without a client as unfinished even when its join has returned
  (`JoinOutput.UnfinishedIff`), and raises an index error when given more finished outputs than
  there are hosts (`JoinOutput.Join`).
- `open_shell` returns its shells in the order in which they were opened, which need not be
  that of the hosts (`JoinOutput.ShellsInOrderIff`).
- The client cache keeps a client for a host that has left the list, or replaces one in use,
  exactly when a client is stored too late (`ClientCache.CurrentIff`, `ClientCache.AgreedIff`).
- A recursive upload does not notice a file in the place of an empty directory
  (`Upload.EveryNodeThereIff`), and an upload of a missing file empties the remote one
  (`Upload.MissingFileLeavesEmptyOne`).
- A recursive upload to the empty path goes to the root, not to the working directory
  (`Paths.SlashJoinDescendsIff`, `Upload.UploadMirrors`).
- A download never delivers a file with a line break in its path (`Download.EveryFileThereIff`),
  and makes the directories of a relative path below the root (`Download.RelativeDownloadIff`,
  `Download.DownloadDelivers`).

## Model

Names are qualified by module and class.  Methods are stated against the function that follows
the same branches; the lemmas listed with them say what that function achieves.

| member | source | states |
|---|---|---|
| Lines.FindEol | pssh/clients/base/single.py:545-550 | What the line finder is relied on for: the offset, counted from `pos`, of the first LF at or after it, one octet earlier when a CR of the same slice precedes it; -1 exactly when there is none |
| Lines.SplitChunk | pssh/clients/base/single.py:542-558 | One chunk, scanned behind whatever was held over, leaves exactly the lines of the stream so far and, as remainder, its open line |
| Lines.ReadOutputBuffer | pssh/clients/base/single.py:535-563 | For every sequence of chunks the lines yielded are those of the whole stream read octet by octet: each LF ends one, an unterminated last one is yielded only if not empty, a CR is dropped unless a chunk starts right behind it |
| Lines.SameLinesIff | pssh/clients/base/single.py:541-561 | Two ways of cutting one stream give the same lines if and only if they agree on every cut that falls between a CR and its LF |
| Lines.ChunkingIrrelevantIff | pssh/clients/base/single.py:541-561 | Chunked and unchunked lines are identical if and only if no chunk boundary falls between a CR and its LF |
| Lines.SameLinesButCr | pssh/clients/base/single.py:541-561 | Whatever the chunks, the lines are equal up to trailing CRs |
| Lines.LinesAreSplitOnIff | pssh/clients/base/single.py:541-561 | The lines are the pieces between the LFs, less an empty last piece, if and only if every CRLF of the stream was cut in two (so always when there is none) |
| Lines.LinesAreSplitOnButCr | pssh/clients/base/single.py:541-561 | In every case they are those pieces up to trailing CRs |
| ReaderBuffer.ConcurrentRWBuffer.constructor | pssh/clients/reader.py:50-56 | A new buffer is empty, with flag and event clear |
| ReaderBuffer.ConcurrentRWBuffer.Write | pssh/clients/reader.py:58-69 | The whole new state, on the shared-cursor byte store, for any cursor position |
| ReaderBuffer.ConcurrentRWBuffer.Read | pssh/clients/reader.py:71-84 | The whole new state and the chunk or nothing, for any cursor position |
| ReaderBuffer.ConcurrentRWBuffer.SetEof | pssh/clients/reader.py:29-31 | Both the wakeup flag and the event are set; `Wakeup.SetIsBothHalves` says what this does to those asleep |
| ReaderBuffer.ConcurrentRWBuffer.Iterate | pssh/clients/reader.py:86-92 | One resumption: the new state, and whether it yields, waits or ends |
| ReaderBuffer.WriteAppends | pssh/clients/reader.py:64-69 | From any valid state a write appends to the stored and to the unread octets, wherever the cursor was moved to, and the flag is then set exactly when it was or something is unread |
| ReaderBuffer.ReadTakesAll | pssh/clients/reader.py:76-84 | A read returns all unread octets, never an empty chunk, loses no stored octet, and clears the flag exactly when there was none |
| ReaderBuffer.TurnIs | pssh/clients/reader.py:86-92 | An iteration yields all that is unread; with nothing unread it ends if the end is set, leaving the buffer as it is, and otherwise waits with the flag clear |
| ReaderBuffer.RefinesQueue | pssh/clients/reader.py:50-92 | Over any run of writes, reads, iterations, end-of-file and outside cursor moves the buffer gives out what a plain octet queue gives out, and stores exactly what was written |
| ReaderBuffer.QueueConserves | pssh/clients/reader.py:58-84 | What the queue gave out, then what it holds, is what it held before and everything written, in order |
| ReaderBuffer.ConservesOctets | tests/test_reader.py:82-87 | On a new buffer: chunks read, then the unread suffix, equal all writes in order and once, cursor moves or not; the stored length is the write position |
| Wakeup.StepKeepsInv | pssh/clients/reader.py:58-92 | Every write, read, iteration, end-of-file or cursor move keeps it: a clear flag means nothing unread, and an iterator asleep unnotified misses neither data nor the end |
| Wakeup.NoLostWakeup | pssh/clients/reader.py:58-92 | Hence so does every run, for any number of iterators, readers and writers |
| Wakeup.StoredIsWritten | pssh/clients/reader.py:58-92 | All chunks taken by anyone, in order, then the unread octets, are all the octets written by anyone |
| Wakeup.AnyoneMayGo | pssh/clients/reader.py:58-92 | In every reachable state writers, readers and the end may come next, and so may each iterator with something to take or the end to see |
| Wakeup.CursorMayBeAnywhere | tests/test_reader.py:82-87 | Whatever state can be reached can be reached with the cursor of the store anywhere |
| Wakeup.IteratorsEnd | pssh/clients/reader.py:86-92 | Once the end is set and nothing more is written, all iterators together take at most one turn each, and one more for the data left |
| Wakeup.NoneStranded | pssh/clients/reader.py:86-92 | In a run of any number of iterators, when the end is set and none can move, all have ended |
| Wakeup.SetIsBothHalves | pssh/clients/reader.py:29-31 | Setting the end is setting the flag, which wakes everyone exactly if it was clear, and then the event |
| Wakeup.SplitSetStrands | pssh/clients/reader.py:29-31 | If setting flag and event were two steps, a run would leave an iterator asleep after the end |
| Wakeup.StrandedForGood | pssh/clients/reader.py:86-92 | From there it sleeps through any run without a new octet or another `set` |
| OutputPipeline.ReadOutputToBuffer | pssh/clients/native/single.py:382-396 | Whatever the reads return, the buffer gains exactly the octets of the stream, the end is set on every way out, and an error is passed on |
| OutputPipeline.StreamIs | pssh/clients/native/single.py:384-390 | That stream is the data of all reads before the final one, in order, whatever EAGAINs (and for the other library empty reads) lie between them, and nothing after it; it ends in an error if and only if the final read raised |
| OutputPipeline.ScriptSplits | pssh/clients/ssh/single.py:259-271 | Every sequence of reads is of that form, for either library |
| OutputPipeline.EveryOctetAccounted | pssh/clients/base/single.py:535-563 | At every point of every interleaving: octets handed out with their separators, octets dropped by interruptions, the held remainder, the rest of the chunk, the unread octets and the channel's rest are the stream, in this order |
| OutputPipeline.AnyoneMayGo | pssh/clients/base/single.py:535-563 | In every reachable state the reader may go on exactly until the end is set, the consumer while there is something to take or the end to see, and it may be interrupted exactly until it has finished |
| OutputPipeline.ResumptionLosslessIff | README.rst:154 | A reading interrupted and resumed any number of times hands out the whole stream if and only if nothing was held at any interruption |
| OutputPipeline.InterruptionLoses | README.rst:154 | A run that is interrupted when only the start of a line was read hands out that line without its start |
| OutputPipeline.StaysFaithful | pssh/clients/base/single.py:535-563 | At every point of a reading that dropped nothing the lines handed out are those completed in what was read, and the remainder is the open line |
| OutputPipeline.EndToEnd | pssh/clients/base/single.py:535-563 | For both libraries, every split of the output into reads and every interleaving, a finished reading that dropped nothing handed out exactly the lines of the stream |
| OutputPipeline.EndToEndSplit | pssh/clients/ssh/single.py:259-271 | These are the pieces between the LFs up to trailing CRs, and exactly those pieces if and only if every CRLF was cut in two by a chunk boundary |
| OutputPipeline.UninterruptedIsLossless | pssh/clients/base/single.py:535-563 | Without interruptions nothing is dropped |
| OutputPipeline.UninterruptedReading | pssh/clients/base/single.py:535-563 | So an uninterrupted finished reading hands out exactly the lines of the octets of the reads before the final one: the plain pieces up to trailing CRs, and exactly those if and only if every CRLF was cut in two |
| OutputPipeline.RunSpendsPotential | pssh/clients/base/single.py:541-561 | Every step of a run but an interruption uses up a measure, which an interruption raises by at most one |
| OutputPipeline.ReadingEnds | pssh/clients/reader.py:86-92 | Steps are bounded by the size of the stream and the number of reads and interruptions, and a reading that is not finished can always move: no schedule leaves the consumer asleep |
| Connect.SshClient.Connect | pssh/clients/base/single.py:351-372 | New state and outcome, for every schedule of lookups, attempts and refusals, with a nested refusal caught by the outer address loop; it terminates |
| Connect.SshClient.ConnectSocket | pssh/clients/base/single.py:374-394 | The socket is replaced before the attempt; a refusal is passed on, any other error retried while retries are left |
| Connect.SshClient.InitSession | pssh/clients/native/single.py:284-311 | The handshake with its retries, including the reconnects below it |
| Connect.SshClient.ConnectInitSessionRetry | pssh/clients/base/single.py:323-338 | Session and socket are dropped, then connecting and the handshake are done again |
| Connect.SshClient.InitClient | pssh/clients/base/single.py:264-266 | Connecting a new client, then the handshake |
| Connect.ConnectIsFlat | pssh/clients/base/single.py:351-394 | The calls that call one another come to the same client and outcome as one loop over lookups and attempts that keeps, for each level, the number of addresses not yet tried |
| Connect.FailedLookupsRetry | pssh/clients/base/single.py:354-359 | Lookups that fail are made again while retries are left, and the first that does not fail is used |
| Connect.NeverFound | pssh/clients/base/single.py:354-359 | A host that is never found is given up exactly after one lookup a level, with no attempt |
| Connect.AlwaysFails | pssh/clients/base/single.py:382-394 | Sockets that fail every time are given up exactly after one attempt a level, without a look at the other addresses |
| Connect.RefusalsTryEach | pssh/clients/base/single.py:363-372 | Refusals alone are not retried: each address is tried once, up to the first that accepts |
| Connect.ConnectBlames | pssh/clients/base/single.py:351-394 | Every outcome names what the last lookup or attempt came to |
| Connect.FailedReconnectLeaves | pssh/clients/base/single.py:323-338 | A reconnect that fails leaves no session, and a socket only if it made an attempt |
| Connect.SessionEnds | pssh/clients/native/single.py:284-311 | All handshakes but perhaps the last failed; it is given up exactly after one a level, and a connection that fails in between gives its own outcome |
| Connect.HandshakesRetry | pssh/clients/native/single.py:284-311 | Where every reconnect succeeds it goes on to the first handshake that succeeds, with one connection for each, or to the last |
| Connect.InitEnds | pssh/clients/base/single.py:264-266 | The same for the whole of connecting: no hands are shaken after a first connect that failed, and the outcome is that of the last step taken |
| Connect.ConnectBound | pssh/clients/base/single.py:351-394 | With at most n addresses a lookup, a call with m retry levels left makes at most n + n^2 + ... + n^m attempts, and never takes one back |
| Connect.ConnectPowerBound | pssh/clients/base/single.py:351-394 | So connecting with R retries makes at most n + n^2 + ... + n^max(1, R) |
| Connect.LookupBound | pssh/clients/base/single.py:351-363 | The same call makes at most 1 + n + ... + n^(m - 1) lookups, for n > 0 |
| Connect.TowerIsLookups | pssh/clients/base/single.py:351-372 | The bound on attempts is n times that on lookups |
| Connect.ConnectSettles | pssh/clients/base/single.py:351-394 | It returns normally if and only if its last attempt was accepted; no earlier one was; then `self.sock` is the socket of that attempt |
| Connect.WorstIsMet | pssh/clients/base/single.py:351-394 | A schedule that spends every retry at every address makes exactly that many attempts and lookups, and still returns normally if the last attempt is accepted |
| Connect.BoundIsAttained | pssh/clients/base/single.py:351-394 | For every n, R > 0 and either ending a network attains both bounds |
| Connect.SessionBound | pssh/clients/native/single.py:284-311 | At most one handshake a level and the sum of the connect bounds of the levels below; on normal return the session shook hands over the current socket, which is the accepted one |
| Connect.InitBound | pssh/clients/base/single.py:264-266 | The same for the whole of connecting: at most max(1, R) handshakes |
| Connect.InitLookupBound | pssh/clients/base/single.py:264-266 | And at most the sum of the lookup bounds of the levels |
| Connect.InitSingleAddress | pssh/clients/base/single.py:323-338 | With one address at most R (R + 1) / 2 attempts and R handshakes |
| Connect.WorstSessionIsMet | pssh/clients/ssh/single.py:153-180 | A schedule that fails every handshake but the last after the dearest connect makes exactly that many attempts, lookups and handshakes |
| Connect.InitBoundIsAttained | pssh/clients/base/single.py:323-394 | For every n, R > 0 a network attains all three bounds and connects |
| Writes.EagainWrite | pssh/clients/base/single.py:91-99 | However much the far end takes at a time, and however often it reports EAGAIN, it receives the data once and in order |
| Writes.Put | pssh/clients/native/single.py:507-512 | The remote end receives the local file, read in blocks, once and in order; the loop at lines 763-768 is the same for SCP |
| Writes.RelayInOrder | pssh/clients/native/tunnel.py:203-226 | At every step of the tunnel the channel has a prefix of the socket's octets and lacks at most the one block of 1024 in hand |
| Writes.RelayReachesIff | pssh/clients/native/tunnel.py:203-226 | The states a run can come to are exactly those in which the channel lacks the rest of the block in hand |
| Writes.RelayDelivers | pssh/clients/native/tunnel.py:203-226 | Whatever blocks come from the socket and however much the channel takes of each at first, there is a run that passes them all on |
| Writes.CommandsInterleave | pssh/clients/base/single.py:201-209 | Whatever greenlets write to one shell in whatever turns, the pieces received from each are, in order, the part of its command written so far |
| Writes.ShellReceives | pssh/clients/base/parallel.py:173-179 | So once written every command with its newline arrives whole, in order and once, and nothing else arrives |
| Writes.PiecesReachedIff | pssh/clients/base/single.py:91-99 | What can arrive is exactly every sequence of pieces, of any sizes, in which each goes on with a command not yet written |
| Writes.GroupedIff | pssh/clients/base/single.py:91-99 | Once all commands are written, no piece of one lies between pieces of another if and only if octets were only ever taken from a writer while every other had written nothing or everything |
| Writes.CommandsContiguous | pssh/clients/base/single.py:91-99 | In such a run what has arrived is at every point whole distinct commands and the start of one more |
| Writes.AllContiguous | pssh/clients/base/parallel.py:173-179 | And in the end all of them, in some order, each contiguous |
| Writes.NoPartialIsTurnwise | pssh/clients/base/single.py:91-99 | A run without partial writes is such a run |
| Writes.WholeWritesContiguous | pssh/clients/base/parallel.py:173-179 | So without partial writes every command is contiguous |
| Writes.PartialWriteSplits | pssh/clients/base/parallel.py:173-179 | With a partial write some run puts one command inside another; `Writes.GroupedIff` says exactly which runs do |
| Forwarder.StepKeepsInv | pssh/clients/native/tunnel.py:65-89 | Requests issued are the ports delivered, then those in the out queue, being served or lost, and in the in queue, in order, and there is one without a port for every waiting caller; also after the thread has ended |
| Forwarder.RunKeepsInv | pssh/clients/native/tunnel.py:117-140 | So after every run |
| Forwarder.PortsInOrder | pssh/clients/native/tunnel.py:55-89 | In every run the k-th port delivered is that of the k-th request, and at most three requests are without a port |
| Forwarder.OneRequestIsLost | pssh/clients/native/tunnel.py:138-140 | A server that fails to start costs exactly its own request, the oldest not in the out queue: all others are still in the queues |
| Forwarder.AnyStages | pssh/clients/native/tunnel.py:65-89 | Each stage may be full whatever the others hold, and the thread may end at any time while it serves: every combination but serving after a loss occurs in some run |
| Forwarder.MayAskAgain | pssh/clients/native/single.py:248-249 | A caller that has its port may ask again and then waits like any other |
| Forwarder.OneThread | pssh/clients/native/single.py:245-250 | With one calling thread it gets the port of its own server in every run |
| Forwarder.CollectsOwnIff | pssh/clients/native/single.py:249 | A caller that takes a port gets its own if and only if it has waited longest |
| Forwarder.OwnPortsFromBegin | pssh/clients/native/single.py:248-249 | For any number of threads, callers hold their own ports at every point of a run if and only if every port is taken by the caller that has waited longest |
| Forwarder.ThreadsCanSwap | pssh/clients/native/single.py:248-249 | With two or more, a reachable run gives two of them the port of the other |
| Forwarder.AlwaysOwnIff | pssh/clients/native/single.py:248-249 | Callers have their own ports in all runs if and only if there is at most one |
| Forwarder.NeverStuck | pssh/clients/native/tunnel.py:130-137 | While the thread lives and a caller waits, a step that serves someone can be taken |
| Forwarder.WorkRunsOut | pssh/clients/native/tunnel.py:65-77 | And at most six of them follow each other: every request is answered |
| Forwarder.StuckIff | pssh/clients/native/tunnel.py:138-140 | In every reachable state with a waiting caller, nobody can move if and only if the thread has ended and left no port |
| Forwarder.StuckAfterFailure | pssh/clients/native/tunnel.py:138-140 | After a server that failed to start, a caller left waiting waits in every run from there |
| Forwarder.DeadQueueFills | pssh/clients/native/tunnel.py:56 | After the end of the thread at most one more request goes into the in queue, none once it is full, and none ever leaves it |
| Forwarder.HaltedIff | pssh/clients/native/single.py:248-249 | With the callers that block on a full in queue counted too: nobody without a port can move if and only if the thread has ended, no waiting caller has a port to take, and the in queue is full or nobody is about to ask |
| Forwarder.FailureStrands | pssh/clients/native/tunnel.py:138-140 | Such a state is reachable with a single caller |
| ChannelLocks.LocksTell | pssh/clients/native/single.py:424-428 | In every reachable state the two locks say exactly where every `close_channel` call stands |
| ChannelLocks.ReadsAndClosesExclude | pssh/clients/native/single.py:382-428 | No read starts while a close is in its EAGAIN loop, whichever of the two locks readers take, and no two closes overlap |
| ChannelLocks.ReadStartsIff | pssh/clients/native/single.py:382-428 | In every reachable state a read on stdout can start if and only if no close is between its two locks or in its loop, one on stderr if and only if none is in its loop |
| ChannelLocks.MovesIff | pssh/clients/native/single.py:424-428 | And when each close can go on: into the first lock if and only if no other has it, into the second at once, and it may be aborted at any time |
| ChannelLocks.ExitFrees | pssh/clients/native/single.py:424-428 | Leaving, normally or not, frees what the close held, and nothing else |
| ChannelLocks.ClosersEnd | pssh/clients/base/single.py:83-89 | All closes together take a bounded number of steps, however many reads come between |
| ChannelLocks.ClosesToTheEnd | pssh/clients/base/single.py:83-89 | A close that is not aborted calls the channel again after every EAGAIN: exactly once more than the EAGAINs it gets, by the time it leaves its loop |
| ChannelLocks.NoDeadlock | pssh/clients/native/single.py:424-428 | While a close is not through, some close can go on by itself: the fixed order of the locks admits no deadlock |
| ClientCache.ParallelClient.SetHosts | pssh/clients/base/parallel.py:113-121 | The whole new state is that of the reassignment step of the machine: exactly the pairs that were in the old list and are not in the new one leave the cache |
| ClientCache.ParallelClient.Find | pssh/clients/base/parallel.py:558-560 | The check step of the machine: the call is done with the cached client of its pair, or goes on to build one |
| ClientCache.ParallelClient.Store | pssh/clients/base/parallel.py:561-566 | The finish step: the new client is stored for the pair asked for, whatever became of the list |
| ClientCache.SpawnsForItsHost | pssh/clients/base/parallel.py:229-231 | A call can be made for every position of the list, and is for that position and the host that stands there |
| ClientCache.CallsKeepTheirPair | pssh/clients/base/parallel.py:555-566 | Through every run it keeps that pair, and once it is over nothing happens to it |
| ClientCache.DoneWithItsClient | pssh/clients/base/parallel.py:558-566 | A call that is done has the client then cached under its pair: the cached one if there is one, otherwise a new one |
| ClientCache.BuildsIfNone | pssh/clients/base/parallel.py:558-560 | It goes on to build one if and only if there is none for its pair |
| ClientCache.RaiseLeavesNothing | pssh/clients/base/parallel.py:561-566 | Building may fail, leaves nothing behind, and the next call for the pair builds again |
| ClientCache.StaysCachedIff | pssh/clients/base/parallel.py:113-121 | Over any run a cached client stays cached throughout if and only if no reassignment goes from a list with its position and host to one without |
| ClientCache.StaleSurvives | pssh/clients/base/parallel.py:118-120 | So a stale client survives every reassignment to a list without its pair; it goes only after a list took the pair in again |
| ClientCache.CacheFits | pssh/clients/base/parallel.py:555-566 | Over all runs every cached pair is one of the current list, unless its client was asked for before a reassignment and stored after it |
| ClientCache.QuietCacheFits | pssh/clients/base/parallel.py:113-121 | Every pair is, if the list only changes while no request is under way |
| ClientCache.CurrentIff | pssh/clients/base/parallel.py:555-566 | From any state whose cache fits the list, it fits at every point of a run if and only if every client is stored while its pair is in the list |
| ClientCache.StaleKeyReachable | pssh/clients/base/parallel.py:564-565 | A run in which one is not leaves a pair of the old list in the cache |
| ClientCache.TwoClientsReachable | pssh/clients/base/parallel.py:558-565 | Two requests for one pair at once get two clients, the second replacing the first in the cache |
| ClientCache.OneClientPerKey | pssh/clients/base/parallel.py:555-566 | If requests for one pair do not overlap and the list stays, all of them get the one cached client; a request whose client could not be built is over |
| ClientCache.AgreedIff | pssh/clients/base/parallel.py:558-566 | While the list stays, every request that is done has the cached client of its pair at every point if and only if no client is stored over another one |
| ClientCache.FromBegin | pssh/clients/base/parallel.py:113-121 | All this for every run of a new parallel client |
| JoinOutput.Join | pssh/clients/base/parallel.py:363-373 | Failure, completion, the index error when more greenlets finished than there are hosts, or the timeout with its two lists |
| JoinOutput.UnfinishedIff | pssh/clients/base/parallel.py:368-380 | On timeout an output is reported unfinished if and only if no finished greenlet joined it with a client: one without a client always is |
| JoinOutput.TimeoutPartitions | pssh/clients/base/parallel.py:366-373 | For distinct outputs with clients the finished and unfinished lists together hold every output once |
| JoinOutput.OpenShell | pssh/clients/base/parallel.py:158-163 | The shells come in the order in which their greenlets finished, and every host has its shell among them |
| JoinOutput.ShellsInOrderIff | pssh/clients/base/parallel.py:155-163 | They are in the order of the hosts, as is promised, if and only if the greenlets finished in that order |
| GitDescribe.MatchFinds | pssh/_version.py:350-372 | A string has the form TAG-NUM-gHEX in at most one way, hyphens in the tag included, and the search finds it |
| GitDescribe.ParseCases | pssh/_version.py:341-378 | Each kind of answer comes out in exactly one case, told by the hyphen, the shape and the prefix, and always with the dirty mark |
| GitDescribe.TaggedIs | pssh/_version.py:350-372 | With a tag: the parts of the one shape that the description has, less the prefix |
| GitDescribe.UntaggedIs | pssh/_version.py:374-378 | Without: the number of commits, and the first seven digits of the hash of HEAD |
| GitDescribe.StripIs | pssh/_version.py:336-344 | White space is taken off at both ends, all of it and no more |
| GitDescribe.DirtyMark | pssh/_version.py:341-344 | The dirty suffix is found if and only if it was printed, and cutting it gives back what it was printed behind |
| GitDescribe.ParseOfRender | pssh/_version.py:336-372 | Parsing a printed description gives back tag, distance, hash and dirty mark, for every prefix, non-empty tag without white space, distance and hash |
| GitDescribe.EmptyTagIsLost | pssh/_version.py:596-598 | What is printed for an empty tag, behind any prefix, is never read as a tagged version |
| GitDescribe.UntaggedOfRender | pssh/_version.py:374-378 | What is printed without a tag is read as untagged, with the commits counted, the first seven digits of the hash of HEAD, and its dirty mark |
| GitDescribe.RoundTripIff | pssh/_version.py:584-601 | For every tag without white space the round trip holds if and only if the tag is not empty |
| GitDescribe.RenderOfParseIff | pssh/_version.py:336-372 | Printing what was parsed gives back what git printed if and only if its tag is more than the prefix and its distance has no leading zero |
| Files.MkdirMakes | pssh/clients/native/single.py:550-566 | A chain of directories can be made if and only if no file is in its way; then the missing ones exist and nothing else changed |
| Files.MkdirGrows | pssh/clients/native/single.py:550-566 | Even where that fails only directories of the chain were added |
| Paths.SlashJoinDescendsIff | pssh/clients/base/single.py:672 | Joining a name with a slash goes one level down if and only if the directory is not the empty path (or the working directory is the root) |
| Paths.OsJoinDescends | pssh/clients/base/single.py:734-735 | The other way of joining always does, and keeps an absolute path absolute |
| Paths.SplitCutsLast | pssh/clients/base/single.py:749-752 | What the split takes off a path that can name a file is exactly its last component, and nothing is returned only for a direct child of the root or the working directory |
| Paths.DownloadDirIs | pssh/clients/native/single.py:612-614 | The directory made for a download never depends on the working directory; for a file it is that of its path taken from the root |
| Upload.Sftp.MakeDirs | pssh/clients/native/single.py:541-566 | The loop over the queue of names, with a stat before each |
| Upload.SendBlocks | pssh/clients/native/single.py:507-512 | The contents arrive whole, block by block, through any partial writes and EAGAINs |
| Upload.Copy | pssh/clients/native/single.py:488-505 | Outcome and new remote file system for every local path, target, flag and way in which the server answers the writes, errors included |
| Upload.CopyDir | pssh/clients/base/single.py:665-674 | The same for a directory, entry by entry in any listing order |
| Upload.MkdirLoopIs | pssh/clients/native/single.py:554-566 | The loop on path strings makes the chain of directories of their components; a dot on the way only fails at a file |
| Upload.MkdirWorks | pssh/clients/native/single.py:541-566 | `mkdir` succeeds if and only if no file is in the way, nor at the end of a path that ends in a dot; then the path exists, nothing else changed, and it is made parents first: every directory has its parent |
| Upload.PutFileWorks | pssh/clients/native/single.py:496-503 | One file: success if and only if nothing is in the way; then it is at its place with its contents, missing ancestors were made, and nothing else changed |
| Upload.UploadMirrors | pssh/clients/native/single.py:469-505 | A recursive upload, to a target that names a file if it copies one: success if and only if no file is in the way, no directory stands where a file goes, and no file where a directory with entries goes or where the target ends in a dot; then every local file is at its relative path with its contents, every directory exists, missing ancestors of the target were made, and nothing else changed. However it ends each path is as before or as wanted. An empty target stands for the root |
| Upload.FlagIsForDirs | pssh/clients/native/single.py:489-494 | For a file the recursion flag makes no difference |
| Upload.UploadRefused | pssh/clients/native/single.py:488-505 | Every other upload fails: without the flag nothing is done, but a target ending in a slash or dot is first made into directories, even where a file is copied |
| Upload.PutFileErrors | pssh/clients/native/single.py:496-503 | One file: which error comes of a file in the way of its directories, and which of a directory in its place |
| Upload.UploadOutcomes | pssh/clients/native/single.py:469-505 | A recursive upload of what is there fails in no other way than these two |
| Upload.EveryNodeThereIff | pssh/clients/base/single.py:665-674 | After a successful upload every local node is mirrored if and only if no remote file stood in the place of a (necessarily empty) local directory: that conflict goes unnoticed |
| Upload.MissingFileLeavesEmptyOne | pssh/clients/native/single.py:532-535 | A local file that is missing is reported, but the remote file it would have gone to has been emptied or created |
| Upload.NoFileName | pssh/clients/native/single.py:496-503 | A file is never copied to a target ending in a slash or dot, and only directories of that path are made |
| Download.ReadNames | pssh/clients/base/single.py:714-717 | The lines of all the names that were read |
| Download.SplitLinesAre | pssh/clients/base/single.py:716-717 | The lines of a name and the breaks between them make up the name, no break is left in a line, and CR LF is one break |
| Download.LineIsUnbroken | pssh/clients/base/single.py:716-717 | A line holds no line break |
| Download.LocalDirWorks | pssh/clients/base/single.py:739-747 | The local directories are made if and only if no file is in their way, nor stands where the path ends in a dot; then nothing else changed, and otherwise only directories of the chain were added |
| Download.CopyRemoteFile | pssh/clients/native/single.py:591-618 | Outcome and new local file system for every remote path, local path and flag, errors included |
| Download.CopyRemoteDir | pssh/clients/base/single.py:728-737 | The same for the lines of a directory |
| Download.FitsBothIff | pssh/clients/base/single.py:730-737 | Files delivered first never get in the way of others: the rest fit after them if and only if all did at the start |
| Download.DeliveredBoth | pssh/clients/base/single.py:730-737 | Two deliveries one after the other are the delivery of all the files |
| Download.ReadableIff | pssh/clients/base/single.py:714-717 | Every name met from a directory on falls into lines that name entries if and only if this holds from each entry that its lines name |
| Download.GetWorks | pssh/clients/native/single.py:612-616 | One file: success if and only if it fits, for an absolute path if its place is free; then it is there and its directories were made from the root |
| Download.DownloadDelivers | pssh/clients/native/single.py:568-618 | A recursive download to an absolute path, or to a relative one whose files do not disturb one another, that names a file if it copies one: success if and only if every name met falls into lines that name entries, and every file fits; then exactly the files without a line break on their relative path are at their relative places, their directories were made from the root, and nothing else changed. However it ends each path is as before or as wanted |
| Download.AbsoluteIsDirect | pssh/clients/native/single.py:612-614 | An absolute path asks for nothing more |
| Download.ElsewhereIsDirect | pssh/clients/native/single.py:612-614 | A relative path whose names, taken from the root, do not lead on to the target asks for nothing more either |
| Download.FlagIsForDirs | pssh/clients/native/single.py:600-611 | For a file the recursion flag makes no difference |
| Download.DownloadRefused | pssh/clients/native/single.py:591-618 | Every other download fails, with the error of its kind, and at most makes directories on the way |
| Download.CopyRemoteBlames | pssh/clients/native/single.py:591-618 | A recursive download ends in the endless descent only where a name has an empty line, and with the error for a missing entry only where one has a line that names none |
| Download.UnbrokenNamesDeliver | pssh/clients/native/single.py:593-616 | Without line breaks in names: success if and only if every file fits, and every file is delivered |
| Download.EveryFileThereIff | pssh/clients/base/single.py:714-717 | A successful download to where nothing was has every file in its place if and only if no relative path of a file holds a line break |
| Download.RelativeDownloadIff | pssh/clients/native/single.py:612-616 | A file to any relative path: success if and only if the directories can be made below the root, the file's directory below the working directory was there before, and no directory has its name |
| Download.RelativeDownloadStrays | pssh/clients/native/single.py:612-616 | Then the file is at its place and the directories made are stray ones below the root |
| Download.BackFromMirror | pssh/clients/native/single.py:593-616 | From any place that mirrors a tree to a place where nothing is, for names without line breaks: success if and only if no file is in the way or there is no file; then every file is back at its relative path, with exactly the directories that have a file beneath them |
| Download.RoundTrip | pssh/clients/native/single.py:593-616 | Upload to where nothing is, then download to where nothing is, for names without line breaks: each succeeds if and only if no file is in the way of its target (or there is no file to fetch); every file is back with its contents at its relative path, with exactly the directories that have a file beneath them |
| Download.EveryFileBack | pssh/clients/native/single.py:593-616 | Upload, then download to an absolute path, or to a relative one whose files do not disturb one another, whatever was at the two targets: exactly when each succeeds, and then every local file without a line break on its relative path is back with its contents at its relative place |

## Left out

- Authentication, keys, certificates, GSSAPI and keepalive: library calls in a fixed order.
- `HostConfig`, exception texts, logging, text encoding: settled by reading a line each.
- Real time: a timeout is an interruption that may come wherever the greenlet yields, a sleep is a yield.
- `Stdin.write`: it hands a write that returns a pair to a loop that compares the result with a number (pssh/clients/base/single.py:127), so what is proved of writes is not about it.
- The SCP variants of the recursive copies: the same traversals with weaker promises; only their write loop is covered, by `Writes.Put`.
- `_read_channel` of the tunnel (pssh/clients/native/tunnel.py:228-250): it hands whole reads to `sendall`, which is a library call.
- `wait_finished` but for the close it makes, and `_get_output_from_cmds` but for its indexing of the host list: straight-line code.
- The parallel `copy_file` and its per-host arguments: the copies are those of the single client.
- The other version styles of pssh/_version.py, versioneer.py, setup, docs and the embedded test server.
- Lines.FindEol: the line finder is part of a library; its contract is what the call and the tests rely on.
- ReaderBuffer.ConcurrentRWBuffer.Iterate: the lock is left out, since no step it guards yields.
- ChannelLocks.ReadsAndClosesExclude: the native client starts both readers on the stdout lock (pssh/clients/native/single.py:351-357); the model lets a reader take either, which covers that.
- Connect.ConnectBound: a lookup that succeeds has at least one address, as `getaddrinfo` promises; an empty one would make `_connect` return without a socket.
- Connect.SshClient.ConnectInitSessionRetry: that shutting down the old socket may fail is left out, because the code ignores it.
- Connect.SshClient.InitClient: authentication and keepalive, which follow the handshake, are left out.
- Forwarder.StuckIff: `shutdown` and the cleanup of idle servers are left out; they do not touch the queues.  Callers blocked on a full in queue are the subject of `Forwarder.HaltedIff`.
- JoinOutput.Join: the order of the unfinished list is left open, since the code makes it from a set.
- GitDescribe.ParseOfRender: digits and white space are those below U+0100 (`GitDescribe.SpacesAre`), and the prefix has no white space either; the branch and the date are not part of this model.
- Upload.UploadMirrors: for targets without `..` components, which need what they lead out of to be there; symbolic links, permissions, and I/O errors other than a missing file, an entry in the way or a missing parent are left out.  The local side is a tree of paths: that `os.path.join` goes one level down is `Paths.OsJoinDescends`.
- Upload.Copy: an error in the middle of a transfer, which would leave the start of a file, is left out.
- Download.DownloadDelivers: local paths without `..` components.  A relative path is left out where a directory made for one file is the one that another file needs, since the outcome may then depend on the order of the listing; also one with dots before or at its end, other than for the working directory itself, but for a single file.  The remote side is a tree of paths that does not change during the download.
- Download.CopyRemoteDir: an empty line leads back into the directory it came from; the outcome `Endless` stands for the recursion limit or the error that finally stops this.
- Paths.SplitCutsLast: paths without `..`, as for uploads.
- Paths.DownloadDirIs: paths without `..`, as for downloads.
- Upload.MkdirLoopIs: paths without `..`, as for uploads.
- Upload.MkdirWorks: paths without `..`, as for uploads.
- Upload.PutFileWorks: paths without `..`, as for uploads.
- Upload.UploadRefused: paths without `..`, as for uploads.
- Upload.MissingFileLeavesEmptyOne: paths without `..`, as for uploads.
- Upload.NoFileName: paths without `..`, as for uploads.
- Download.GetWorks: the same paths as for downloads.
- Download.UnbrokenNamesDeliver: the same paths as for downloads.
- Download.EveryFileBack: the same paths as for uploads and downloads.
- Download.ElsewhereIsDirect: the same paths as for downloads.
- Download.DownloadRefused: paths without `..`, as for downloads.
- Download.RelativeDownloadIff: paths without `..`, as for downloads.
- Download.RelativeDownloadStrays: paths without `..`, as for downloads.
- Download.BackFromMirror: says what is at the target in full, and so for one where nothing was.
- Download.RoundTrip: it says what is at the two targets in full, and so for targets where nothing was and names without line breaks; `Download.EveryFileBack` is about any targets and names.
