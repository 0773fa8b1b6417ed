# Verification of the wspace controller's scheduler and feedback path

The wspace controller sits between the Internet and vehicles that are served by several roadside
base stations. This project models its core and proves what the core is for:

- **The airtime scheduler.** A deficit round robin over clients whose deficit is counted in
  microseconds of airtime. Producers push packets (`Enqueue`), any number of forwarders serve
  clients (`Dequeue`), and a route thread recomputes the quanta (`ComputeQuantum`).
- **The acknowledgement path.** Lost raw packets become 16-bit offsets in an ack packet; the sender
  decodes them and settles the fate of every packet it keeps a record of.
- **The packet ring, the timer and the report filter** that support them.

## How the model is laid out

| file | content |
|---|---|
| `Bytes.dfy`, `Wrap.dfy`, `ActiveIds.dfy` | bytes, 16/32-bit arithmetic, the active list as a value |
| `Airtime.dfy` | packet durations and the division of a round into quanta |
| `SchedulerSpec.dfy`, `Scheduler.dfy` | one call at a time: functions on values, and the classes `PktQueue`, `ActiveList`, `PktScheduler` proved against them |
| `Threads.dfy` | all threads at once: every mutex section is one step |
| `SoloRuns.dfy` | an uninterrupted call of the thread model is the sequential function |
| `Progress.dfy` | which steps are possible, exactly, and that nobody gets stuck |
| `ThreadSafety.dfy`, `Backlog.dfy`, `Delivery.dfy` | invariants, lost clients, conservation, for every interleaving |
| `Ledger.dfy`, `Rounds.dfy`, `Fairness.dfy`, `ThroughputFairness.dfy`, `Waiting.dfy` | fairness and latency over whole runs |
| `Overlap.dfy` | runs in which overlapping calls of two consumers break fairness |
| `AckCodec.dfy`, `RawBuffer.dfy`, `AckPipeline.dfy`, `RawHistory.dfy` | the acknowledgement path |
| `Ring.dfy`, `TxDataBuf.dfy` | the free-running-counter ring |
| `Timer.dfy`, `StatsFilter.dfy` | `MonotonicTimer`; the report filter and its table |

The scheduler is modelled twice. `Scheduler.PktScheduler` has the fields and loops of the class and
each of its methods is proved equal to a function of `SchedulerSpec`. `Threads.Next` gives the same
code as interleaved steps: queue push, list append and remove, peek, pop, clear, and taking and
releasing the scheduler's lock (`packet_scheduler.cc:20-97,126-198`). `SoloRuns` ties the two
together, so the whole-run results, which are proved of arbitrary interleavings, are about the code
of the classes. A run is a `Run`: a first state followed by enabled steps. `FromConstructor` are the
runs that begin where a constructor ends; `Continues(cfg, past, r)` says that the interval `r` goes
on where such a run `past` ended, so what is claimed of intervals is claimed from any reachable state.

`Progress` says from which states each step is possible, in terms of the run alone, so that "every
run" leaves out no interleaving of the code: an update can begin whenever the lock is free, also
between a consumer's `Remove` and its `Lock`, and pushes and removals are possible whoever holds it.

`Backlogged(cfg, r, i, j)` is the hypothesis of the fairness results: at the start no consumer is
inside a call and both clients stand in the active list, no route update begins during r, neither
client's queue is ever found empty, and the calls of the consumers do not overlap: none takes an id
off the list while another is between its `Remove` and the release of the lock
(`Fairness.OneCallAtATime`; a single consumer always keeps to this,
`Fairness.OneConsumerNeverOverlaps`). Any number of consumers, producers and other clients may act.

The real-valued `double` arithmetic is exact; the cut of each duration to a whole number is kept.
That throughputs are positive is an assumption: `ComputeQuantum` does not check it, and one of its
callers passes a reported value on as it is (`wspace_controller.cc:204`).

## Where the code and its own material differ

- `test_packet_scheduler.cc:104-106` expects whole-number quanta and a throughput of 1 for a client
  reported at 0.5. The code neither cuts quanta nor clamps throughputs; the model follows the code.
- A comment calls the active list the clients with non-empty queues (`packet_scheduler.h:46`). That
  is not an invariant: a client dropped by a route update and admitted again can have a full queue
  and no entry, and then nothing but a clearing update moves it again
  (`Backlog.ReadmittedClientCanBeForgotten`, `Backlog.ForgottenAndFullIsStuck`). The exact step at
  which it happens is `Backlog.ForgottenExactlyWhenDropped`, the steps that end it are
  `Backlog.RecalledExactly`, and `Backlog.ForgottenExactly` says for whole runs when a client is
  forgotten; one that stays known never is (`Backlog.NoBacklogForgotten`).
- The ring's slots stay distinct across the wrap of its 32-bit counters only while at most 2296
  positions are live, because 2^32 is not a multiple of 5000 (`Ring.LiveSlotsExactly`);
  `Ring.WrapSharesSlots` is a run of the counters with 2297 live positions, two of them in one slot.
  So after 2^32 - 1 packets have passed, 2296 more go in undelivered and the next finds its slot
  occupied in a ring that is far from full. `EnqueuePkt` copies the packet before it checks the slot
  (`wspace_asym_util.cc:153-154`), so the bytes that wait there are overwritten and only then does the
  assertion fail (`TxData.WrapOverwritesWaiting`).
- `DequeuePkt` asserts a positive length and a positive number (`wspace_asym_util.cc:167`), neither of
  which `EnqueuePkt` sees to. An empty packet fails it on a new ring
  (`TxData.EmptyPacketFails`), and so does the packet whose number wraps to 0
  (`TxData.WrappedNumberFails`); of the packets that wait in their slots exactly these do
  (`TxData.TxDataBuf.DequeuePkt`).
- The assertion that a nacked packet's fate is unknown (`wspace_asym_util.cc:466`) fails on some acks:
  exactly on those with a nack, before the first that is not in the buffer, that is repeated or names
  a packet whose fate is known (`AckPipeline.AssertionHoldsExactly`, for every buffer and every list
  of nacks). No repeated nack is needed: an ack that names a packet not in the buffer ends early and
  leaves earlier marks behind, and the next ack naming the same packet fails
  (`RawHistory.StrayNackLeavesMark`). Well-formed acks never fail it
  (`RawHistory.WellFormedRunKeepsBuffer`).
- An ack whose window overlaps packets that were reported already begins before the buffer and settles
  nothing of the window but its nacks (`wspace_asym_util.cc:471-477`, `AckPipeline.NotStoredExactly`).
- The forwarders of one contention group share a scheduler (`wspace_controller.cc:436-437,622`), and
  `Remove` comes before the lock (`packet_scheduler.cc:133-143`). With overlapping calls fairness has
  no bound: while a consumer stalls between the two, another client gets any number of services and
  the client in its hand none (`Overlap.StalledConsumerStarves`). A lock granted in the order of removal does
  not help, because a producer can list a client again while a consumer has it in hand
  (`Overlap.LockOrderDoesNotHelp`). When calls do not overlap the lead stays within one
  (`Fairness.ServicesDifferByAtMostOne`).
- A constructor given a client twice divides the round by the number of ids and not of clients, so its
  quanta add up to less than the round until the first update (`Rounds.RepeatedIdsFallShort`).
- A bound on the number of packets one `Dequeue` call sends while producers keep pushing holds exactly
  when the shortest packet has at least a microsecond's bits; a shorter one has its duration cut to 0
  (`packet_scheduler.cc:148`) and any number of such can follow each other in one call
  (`Waiting.CountBoundedExactly`, `Waiting.ZeroDurationsRunOn`).

## Model

| member | source | states |
|---|---|---|
| Airtime.Duration | packet_scheduler.cc:148 | a packet's duration times the throughput is at most its bits and less than one microsecond's bits below them |
| Airtime.SumTake | packet_scheduler.cc:201-204 | a sum over clients may be taken in any order of iteration |
| Airtime.QuantaDivideRound | packet_scheduler.cc:200-227 | in every mode the quanta add up to exactly the round interval |
| Airtime.QuantaPositive | packet_scheduler.cc:200-227 | in every mode every quantum is positive when the round is |
| Airtime.EqualTimeLaw | packet_scheduler.cc:223-227 | the weighted division gives each client an equal share of the round in equal-time mode |
| Airtime.ProportionalLaw | packet_scheduler.cc:200-208 | quantum over throughput is the same for any two clients |
| Airtime.EqualThroughputLaw | packet_scheduler.cc:210-221 | quantum times throughput is the same for any two clients |
| SchedulerSpec.ServeSendsLongestAffordablePrefix | packet_scheduler.cc:147-161 | the service loop sends exactly the longest prefix of the queue the counter covers, and zeroes the counter only if that empties the queue |
| Scheduler.PktQueue.Enqueue | packet_scheduler.cc:29-45 | accepts at the back unless full; an empty packet is the fatal case |
| Scheduler.PktQueue.Dequeue | packet_scheduler.cc:47-55 | takes the front packet; the queue must not be empty |
| Scheduler.PktQueue.PeekTopPktSize | packet_scheduler.cc:57-65 | 0 exactly when the queue is empty, otherwise the length of the front packet |
| Scheduler.PktQueue.Clear | packet_scheduler.cc:20-27 | empties the queue |
| Scheduler.ActiveList.Append | packet_scheduler.cc:77-85 | adds at the end an id that is not listed; list and membership set stay in step |
| Scheduler.ActiveList.Remove | packet_scheduler.cc:87-97 | takes the oldest id, which is then no longer listed |
| Scheduler.PktScheduler.constructor | packet_scheduler.cc:104-117 | empty queues, empty list, and for every id given the throughput given, an equal share of the round and a zero counter |
| SchedulerSpec.InitialExactly | packet_scheduler.cc:104-117 | the same of the sequential model |
| Scheduler.PktScheduler.CreateClients | packet_scheduler.cc:111-115 | the constructor's loop, also over a list that repeats clients |
| Scheduler.PktScheduler.Enqueue | packet_scheduler.cc:126-131 | pushes and lists the client, or leaves everything as it was when the queue is full |
| SchedulerSpec.DequeueExactly | packet_scheduler.cc:133-142 | a Dequeue call serves the first known client of the list and drops the ids in front of it, or drains the list |
| SchedulerSpec.ServeClientExactly | packet_scheduler.cc:143-161 | the client gets the longest prefix its counter and quantum pay for, keeps what is left and goes to the end of the list, or forfeits it with an emptied queue |
| SchedulerSpec.ServeClientFrame | packet_scheduler.cc:143-161 | nobody else's queue or status changes |
| Scheduler.PktScheduler.TakeKnownClient | packet_scheduler.cc:134-142 | the loop that drops unknown ids agrees with the recursive function, also when it drains the list |
| Scheduler.PktScheduler.SendAffordable | packet_scheduler.cc:147-156 | the imperative loop sends what the recursive service function sends and peeks 0 at the end exactly when the queue is empty |
| Scheduler.PktScheduler.Settle | packet_scheduler.cc:157-161 | an emptied queue forfeits the deficit and leaves the list, any other keeps both |
| Scheduler.PktScheduler.ServeClient | packet_scheduler.cc:143-161 | crediting, serving and settling one client, with every other client unchanged |
| Scheduler.PktScheduler.Dequeue | packet_scheduler.cc:133-163 | the whole call: the served client, its packets and the new state, or a drained list |
| Scheduler.PktScheduler.AdmitClients | packet_scheduler.cc:167-175 | in whatever order the map is walked, exactly the clients of the update are listed once and known, old queues stay, new ones are empty |
| Scheduler.PktScheduler.ClearOthers | packet_scheduler.cc:176-180 | exactly the queues of clients outside the update are emptied |
| Scheduler.PktScheduler.ComputeQuantumProportionalThroughput | packet_scheduler.cc:200-208 | both loops together install the division of the round by throughput |
| Scheduler.PktScheduler.ComputeQuantumEqualThroughput | packet_scheduler.cc:210-221 | the loops over the proportion array install the division by reciprocal throughput |
| Scheduler.PktScheduler.ComputeQuantumEqualTime | packet_scheduler.cc:223-227 | the loop installs the equal division |
| Scheduler.PktScheduler.ComputeQuantum | packet_scheduler.cc:165-198 | whatever the iteration order: queues of mentioned clients stay or are new and empty, all others are emptied, the list stays, and exactly the mentioned clients are known, with the rate given, a zero counter and the quantum of the mode |
| SchedulerSpec.UpdateExactly | packet_scheduler.cc:165-198 | the same of the sequential model |
| SoloRuns.ReachableIsClosed | packet_scheduler.cc:126-198 | the sequential functions apply in every reachable state: listed and known clients have queues |
| SoloRuns.SoloEnqueue | packet_scheduler.cc:126-131 | the producer's two steps, uninterrupted, are the sequential call |
| SoloRuns.SoloServe | packet_scheduler.cc:147-161 | the consumer's loop steps, uninterrupted, are the sequential service loop and its exit |
| SoloRuns.SoloDequeue | packet_scheduler.cc:133-163 | from any state a consumer left alone returns exactly the client and packets of the sequential call, or drains the list |
| SoloRuns.SoloComputeQuantum | packet_scheduler.cc:165-198 | the route thread's steps, in any clearing order, are the sequential call |
| SoloRuns.InitialAgrees | packet_scheduler.cc:104-117 | both models start from the same constructed state |
| Progress.AnyConstruction | packet_scheduler.cc:104-117 | every capacity, round, rate and client list begins a run, in the state the constructor describes |
| Progress.PushExactly | packet_scheduler.cc:29-45 | a producer outside Enqueue can push any non-empty packet to any queue at any time, and only then |
| Progress.ProducerAppendExactly | packet_scheduler.cc:126-131 | and can append exactly after a successful push |
| Progress.RemoveExactly | packet_scheduler.cc:87-97 | a consumer outside Dequeue can take an id exactly when the list is not empty, whoever holds the lock |
| Progress.LockExactly | packet_scheduler.cc:134-142 | a consumer with an id in hand can take the lock exactly when it is free |
| Progress.ConsumerGoesOn | packet_scheduler.cc:143-163 | inside the lock a consumer always has its one next step |
| Progress.RouteLockExactly | packet_scheduler.cc:165-166 | an update for any clients can begin exactly when the lock is free |
| Progress.RouteClearExactly | packet_scheduler.cc:176-180 | an update clears, once and in any order, a queue exactly if it was there when the update began and the update does not mention its client |
| Progress.RouteUnlockExactly | packet_scheduler.cc:176-198 | it ends exactly when it has cleared all of those and no others, with its rates and its division in force and the counters at zero |
| Progress.LockIsReleasable | packet_scheduler.cc:133-198 | in every reachable state the holder of the lock, left alone, can release it |
| Progress.UpdateBetweenRemoveAndLock | packet_scheduler.cc:133-142 | a run in which an update falls between a consumer's removal of a known client and its taking the lock, after which it throws the id away |
| ThreadSafety.InvAlways | packet_scheduler.cc:126-198 | every step of every thread keeps the invariant: one lock holder, a list without repeats, bounded queues of non-empty packets, settled deficits |
| ThreadSafety.PopFindsThePeekedPacket | packet_scheduler.cc:47-55 | in every interleaving the queue is non-empty at the pop, its head is the packet that was peeked, and the counter covers it |
| ThreadSafety.DeficitBelowHead | packet_scheduler.cc:143-161 | whenever the lock is free every counter is non-negative, and a non-zero one stands below the cost of a waiting head packet |
| ThreadSafety.BoundsAlways | packet_scheduler.cc:29-45 | no queue ever exceeds its capacity and the list never repeats a client |
| Backlog.ForgottenExactlyWhenDropped | packet_scheduler.cc:133-142 | a step makes a backlogged client untracked if and only if a consumer drops the last reference to it while it is unknown |
| Backlog.RecalledExactly | packet_scheduler.cc:126-180 | a forgotten client stays so in every step but a clearing of its queue and a successful push to it |
| Backlog.ForgottenExactly | packet_scheduler.cc:126-180 | in any run a client is forgotten if and only if some step dropped the last reference to it and neither a clearing nor a successful push came since |
| Backlog.NoBacklogForgotten | packet_scheduler.cc:126-163 | for any interleaving and number of threads, a client that stays known and has packets queued is listed, about to be appended, or held by a consumer that will look |
| Backlog.FullQueueStillTracked | packet_scheduler.cc:126-131 | a full queue that turns packets away without an Append is still due to be served |
| Backlog.ForgottenAndFullIsStuck | packet_scheduler.cc:126-131 | a forgotten client with a full queue stays forgotten and unserved in every continuation that does not clear its queue |
| Backlog.ReadmittedClientCanBeForgotten | packet_scheduler.cc:133-180 | a concrete run after which a known client has a full queue and nobody bound to look at it |
| Delivery.QueueConserved | packet_scheduler.cc:20-55 | over any run, queued and accepted packets are the removed ones, in order, followed by those still queued |
| Delivery.DeliveryConserved | packet_scheduler.cc:143-163 | over any run, packets sent from a queue are handed back once each, in order, by the Dequeue calls, up to those in flight |
| Delivery.AcceptedIsReturnedThenQueued | packet_scheduler.cc:126-163 | a client whose queue is never cleared gets exactly its accepted packets back, in order |
| Ledger.AirtimeIdentity | packet_scheduler.cc:144-153 | over any interval, airtime sent is credit plus deficit before minus deficit after |
| Ledger.CreditIsServicesTimesQuantum | packet_scheduler.cc:144 | the credit is the number of services times the quantum |
| Ledger.BitsAgainstAirtime | packet_scheduler.cc:148-153 | bits sent lie between airtime times throughput and that plus one microsecond's bits a packet |
| Rounds.DivisionAlways | packet_scheduler.cc:165-198 | over any run from any constructor and any number of updates, whenever none is under way the quanta are those of the last mode for the throughputs in force, except exactly before the first update of a scheduler whose ids were repeated |
| Rounds.AsConstructed | packet_scheduler.cc:104-117 | in every run up to the first update each client has the rate and the share given at construction |
| Rounds.RepeatedIdsFallShort | packet_scheduler.cc:104-117 | a constructor given a client twice leaves quanta that add up to less than the round |
| Rounds.ConstructorDivides | packet_scheduler.cc:104-117 | a constructor given distinct clients starts with the equal-time division |
| Rounds.DivisionLasts | packet_scheduler.cc:126-163 | no other step changes a quantum, a throughput or the set of known clients |
| Rounds.DivisionIsWhole | packet_scheduler.cc:200-227 | the quanta in force are positive and add up to the round |
| Rounds.DivisionLaw | packet_scheduler.cc:200-227 | the quanta in force obey the law of the mode |
| Fairness.TurnsInvariant | packet_scheduler.cc:77-97 | with any number of consumers whose calls do not overlap, the lead in services of one backlogged client over another is fixed by which of them is next up |
| Fairness.ServicesDifferByAtMostOne | packet_scheduler.cc:133-163 | two backlogged clients are served equally often, give or take one |
| Fairness.OneConsumerNeverOverlaps | packet_scheduler.cc:133-163 | the calls of a single consumer never overlap |
| Overlap.StalledConsumerStarves | packet_scheduler.cc:133-143 | a run from a constructor in which one of two backlogged clients gets any number of services and the other, held by a stalled consumer, none |
| Overlap.LockOrderDoesNotHelp | packet_scheduler.cc:126-163 | the same unbounded lead although nobody stalls and the lock goes to consumers in the order in which they took their ids |
| Fairness.AirtimeNearCredit | packet_scheduler.cc:143-161 | a backlogged client's airtime is its services times its quantum, within one packet |
| Fairness.AirtimeFair | packet_scheduler.cc:133-163 | airtimes in units of the quanta differ by at most 1 plus one longest packet each |
| ThroughputFairness.ThroughputFair | packet_scheduler.cc:148-153 | in equal-throughput mode bits differ by at most one service's worth, 16 times the longest length and one microsecond's bits for each packet sent |
| Waiting.ServicesNeededIsLeast | packet_scheduler.cc:144-150 | the number of services reckoned with is the least that pays for the packet |
| Waiting.HeadSentInTime | packet_scheduler.cc:133-163 | a head packet with a known clients ahead of its own in the list is sent within a + 1 + (k - 1) * n returning calls of consumers whose calls do not overlap, k being the services that pay for it and n the number of known clients; ids of dropped clients cost nothing |
| Waiting.CallSendsWithinBudget | packet_scheduler.cc:144-156 | with producers pushing throughout, one call sends a prefix of what was queued and is accepted, at most counter plus quantum of airtime, and at most that many packets when each of those has a microsecond's bits |
| Waiting.LongEnoughExactly | packet_scheduler.cc:148 | a duration is cut to 0 exactly when the packet has fewer bits than the link carries in a microsecond |
| Waiting.CountBoundedExactly | packet_scheduler.cc:144-156 | packets of at least len bytes keep every call in every run within that number if and only if len bytes are a microsecond's worth |
| Waiting.ZeroDurationsRunOn | packet_scheduler.cc:147-156 | with any shorter packet, a run from a constructor leads to one call that sends any number of them |
| AckCodec.RoundTripExactly | wspace_asym_util.cc:417-419 | decoding gives back the pushed numbers if and only if each lies less than 2^16 after the first, modulo 2^32 |
| AckCodec.EncodeOffsets | wspace_asym_util.h:643-653 | pushing one by one records the first number and everyone's offset from it |
| AckCodec.AckPkt.Init | wspace_asym_util.h:520-527 | starts a new packet: no nacks, next ack number |
| AckCodec.AckPkt.PushNack | wspace_asym_util.h:643-653 | appends one number to the packet's contents |
| AckCodec.AckPkt.ParseNack | wspace_asym_util.cc:408-420 | the loop writes exactly the decoded numbers to the front of the caller's array and leaves the rest of it |
| RawBuffer.GetIndExact | wspace_asym_util.h:754-763 | in a consecutive buffer the index is i exactly when entry i has the number, and negative exactly when none has, across the wrap too |
| RawBuffer.TxRawBuf.PushPktStatus | wspace_asym_util.cc:440-448 | appends; a full buffer is first reported as bad and emptied, and only then does the caller's vector change |
| RawBuffer.TxRawBuf.ClearPktStatus | wspace_asym_util.cc:505-516 | reports every entry as bad, in order, and empties the buffer |
| RawBuffer.TxRawBuf.PushPkts | wspace_asym_util.cc:458-489 | the marking loops and the erasure, with their three early ends, are the function the lemmas are about |
| RawBuffer.TxRawBuf.PopDecided | wspace_asym_util.cc:491-503 | reports and erases exactly the decided prefix |
| RawBuffer.TxRawBuf.PopPktStatus | wspace_asym_util.cc:450-456 | an ack is stored and the decided prefix reported, unless the assertion fails |
| AckPipeline.MarkBadExactly | wspace_asym_util.cc:460-468 | well-formed nacks mark exactly the entries they name |
| AckPipeline.AssertionHoldsExactly | wspace_asym_util.cc:460-468 | for every buffer and list of nacks: the assertion fails if and only if a nack before the first stray one is repeated or names a packet of known fate; otherwise marking ends early exactly on a stray nack |
| AckPipeline.MarkedExactly | wspace_asym_util.cc:460-469 | what marking leaves behind, also when it ends early: exactly the packets nacked before the first stray nack are newly bad |
| AckPipeline.OutcomeExactly | wspace_asym_util.cc:458-489 | when an ack fails the assertion, ends on a stray nack, ends on a window whose first or last number is not in the buffer, or is stored |
| AckPipeline.NotStoredExactly | wspace_asym_util.cc:461-477 | an ack that is not stored leaves its marks and changes nothing else, so one whose window begins before the buffer settles no packet |
| AckPipeline.StoredAnyway | wspace_asym_util.cc:479-489 | a stored ack on any consecutive buffer, overlapping earlier acks or not: every entry's fate |
| AckPipeline.AckReportsWindow | wspace_asym_util.cc:450-503 | a well-formed ack on a buffer without fates reports exactly its window, in order, with the right fates, and leaves the consecutive rest without fates |
| AckPipeline.AckEndToEnd | wspace_asym_util.cc:408-503 | pushing the lost packets of a window, decoding and applying the ack reports exactly those as bad and the rest of the window as good |
| RawHistory.HistoryConserved | wspace_asym_util.cc:440-516 | over any calls the records pushed are those taken out, in order, followed by those held, never more than 4000 |
| RawHistory.ErasedOnlyBeforeWindow | wspace_asym_util.cc:484-488 | a held record goes unreported exactly when a stored ack's first number comes after it in sequence order, across the wrap too; a reported one has a fate |
| RawHistory.UnreportedExactly | wspace_asym_util.cc:440-516 | over any calls with consecutive pushes, exactly the records outdated by an ack while held go unreported |
| RawHistory.FailsExactly | wspace_asym_util.cc:460-468 | after any run the next ack fails the assertion exactly when a nack before its first stray one is repeated or names a packet of known fate |
| RawHistory.StrayNackLeavesMark | wspace_asym_util.cc:463-468 | two pushes and two acks, with no nack repeated in either, end in the failed assertion |
| RawHistory.Perform | wspace_asym_util.cc:440-516 | a call on the real buffer leaves and reports what the history says, and fails exactly when it says so |
| RawHistory.PerformAll | wspace_asym_util.cc:440-516 | a batch of calls continues the history up to the first failed assertion, and what its callers get are that history's reports |
| RawHistory.WellFormedRunKeepsBuffer | wspace_asym_util.cc:440-503 | consecutive pushes and well-formed acks keep the buffer consecutive and without fates, so every ack's assertion holds |
| Ring.CountersAlways | wspace_asym_util.cc:9-40 | in every run, through any number of wraps, insertions lead removals by 0 to 5000 and the current pointer never passes the tail |
| Ring.Reach | wspace_asym_util.cc:9-40 | conversely any numbers of calls within those limits are those of some run |
| Ring.HeadsFollowTails | wspace_asym_util.cc:9-40 | the k-th removal is handed the slot of the k-th insertion |
| Ring.SlotsDistinctExactly | wspace_asym_util.h:195-211 | live positions have slots of their own if and only if they do not straddle the counter's wrap or are at most 2296 |
| Ring.LiveSlotsExactly | wspace_asym_util.h:195-211 | the same in every run, for the positions inserted and not yet removed |
| Ring.WrapSharesSlots | wspace_asym_util.h:195-211 | a run of the counters that ends with 2297 live positions, two of them in one slot |
| Ring.SlotExactly | wspace_asym_util.h:199-211 | a counter's slot is its remainder after whole rounds of 5000 |
| Ring.SeqSlotExactly | wspace_asym_util.h:673-675 | a number's slot is the remainder of the number before it, 0 counting as 2^32 |
| Ring.SeqMatchesSlot | wspace_asym_util.h:673-675 | the number tail + 1 maps to the slot of the tail, at the wrap too |
| TxData.TxDataBuf.EnqueuePkt | wspace_asym_util.cc:146-158 | through any number of wraps the packet is copied into the slot of its number and every other slot stays as it was; the assertion holds exactly when the slot was released, and when it fails the bytes there are replaced and the bookkeeping is not |
| TxData.TxDataBuf.FullExactly | wspace_asym_util.h:195-197 | an insertion waits exactly when 5000 packets are in the ring |
| TxData.TxDataBuf.AcquireHeadLock | wspace_asym_util.cc:9-22 | hands out the head's slot and moves the head by one |
| TxData.TxDataBuf.WaitingSlotsDiffer | wspace_asym_util.cc:146-158 | two waiting packets are never in one slot, also across the wrap |
| TxData.TxDataBuf.DequeuePkt | wspace_asym_util.cc:128-186 | times out exactly when nothing waits; otherwise the slot under the current pointer goes outbound and its packet, with a retransmission counted down, to the caller; a waiting packet in that slot is what the caller gets, and in order until the head overtakes |
| TxData.EmptyPacketFails | wspace_asym_util.cc:146-167 | on a new ring an empty packet goes in and fails the assertion on its way out |
| TxData.WrappedNumberFails | wspace_asym_util.cc:146-167 | after 2^32 - 1 packets have gone in, out and away, the next fails the assertion on its way out |
| TxData.WrapOverwritesWaiting | wspace_asym_util.cc:146-158 | from there 2296 packets go in; the next fails on a ring that is not full, over the bytes of the first |
| Timer.QuotRemExactly | monotonic_timer.cc:99-103 | the integer division modelled cuts toward zero |
| Timer.DivisionError | monotonic_timer.cc:99-103 | the computed quotient is the true one minus an exactly stated loss |
| Timer.LostBound | monotonic_timer.cc:99-103 | at most n - 1 nanoseconds are lost |
| Timer.ExactForAllExactly | monotonic_timer.cc:99-103 | division by n is exact for every timer if and only if n divides 10^9 |
| Timer.MonotonicTimer.DivAssign | monotonic_timer.cc:99-103 | for a non-negative normalised timer and n of at least 1 the result is normalised and within n - 1 nanoseconds below the true quotient |
| Timer.MonotonicTimer.AddAssign | monotonic_timer.cc:78-84 | exact sum, normalised, also of a timer with itself |
| Timer.MonotonicTimer.SubAssign | monotonic_timer.cc:67-76 | exact difference, normalised; negative seconds exactly when the subtrahend was larger |
| Timer.OrderIsOfValues | monotonic_timer.cc:18-57 | the comparisons are those of the nanosecond values |
| StatsFilter.CurrentIsMaximum | wspace_controller.cc:509-510 | the recorded number of a pair is the highest one received from a known pair |
| StatsFilter.MaxSeqIsMaximum | wspace_controller.cc:509-510 | that number bounds all known reports of the pair and is one of theirs when positive |
| StatsFilter.EntryExactly | wspace_controller.cc:509-512 | the table has an entry exactly when a report raised the maximum since the last clear, and it is the throughput of the report with the highest number |
| StatsFilter.UnconfiguredNeverKept | wspace_controller.cc:509 | over any run nothing is recorded or kept for a base station or a client that is not configured |
| StatsFilter.NewestReportKept | wspace_controller.cc:509-512 | a configured pair's report with a number above all earlier ones of the pair is recorded and its throughput kept, and no other pair is touched |
| StatsFilter.LateReportIgnored | wspace_controller.cc:509-515 | one with a number not above them changes nothing |
| StatsFilter.OrderDoesNotMatter | wspace_controller.cc:509-512 | without clears any reordering of unambiguous reports gives the same entries |
| StatsFilter.BSStatsTable.Update | wspace_controller.cc:57-61 | the pair's entry is the new throughput, every other pair's the old one |
| StatsFilter.BSStatsTable.Clear | wspace_controller.cc:80-84 | empties the table |
| StatsFilter.StatsReceiver.Receive | wspace_controller.cc:509-515 | one report is kept or ignored as the filter says |
| StatsFilter.StatsReceiver.RecvFromBS | wspace_controller.cc:489-516 | the receiving loop over a batch of reports continues the history |

## Left out

- Floating-point rounding, and durations beyond the range of `int` (throughputs below 0.00025 bits per microsecond): `double` is `real`.
- Memory: packet buffers are values, so allocation, ownership and freeing are not captured; nor is the unguarded lookup in `queues_` while a route update inserts into that map.
- Blocking: a condition wait is a step that is not enabled, or, in the sequential classes, a call that must not be made; wake-up order and spurious wake-ups do not show.
- The process exit on a packet of length 0 is an outcome of `PktQueue.Enqueue` and no step of the thread model.
- `PktScheduler::stats`, `PrintStats`, `set_fairness_mode`: read-only or a plain assignment; the mode is a parameter of the update.
- Bookkeeping of rates, duplicates, timestamps and batch durations in `BasicBuf`; `UpdateBatchSendTime`, `DisableRetransmission`, `RxRcvBuf`: field copies.
- TxData.TxDataBuf.EnqueuePkt: one producer, because the number is read outside the lock; whoever releases slots and rewinds the current pointer is not part of this repository, so the slot-empty assertion is a condition and not a claim.
- TxData.TxDataBuf.DequeuePkt: the order of packets is claimed while the head has not overtaken the current pointer, which nothing in this repository prevents; after that the contract says what the slot holds.
- `StatsFilter.Config`: the known ids are a fixed set; the branch for acks of the same receiving loop (`wspace_controller.cc:523`) looks ids up with an operator that inserts them, after which reports from such an id pass the filter.
- Send times of raw packets, packet types, client and base-station ids carried in an ack.
- `BSStatsTable::GetStats` and `GetThroughput`, route selection, the R optimiser, sockets, tun device, option parsing and forwarding: plain lookups or input and output.
