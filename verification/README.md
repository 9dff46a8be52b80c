# Verified models of the systems-programming projects

The repository is a set of C programs, each about a handful of processes or threads that share memory, files
or pipes. This project models their protocols and algorithms in Dafny and proves what they promise;
`dafny verify dfyconfig.toml` covers the whole of it.

A protocol is a transition system: a state, one step per semaphore operation or guarded section, and theorems
about every run. `Tally.dfy` has the counting lemmas these share: the total of a weight over all processes.
Where the program updates arrays or objects in place, a class or an array method does the same and is proved
to follow the transition system or a specification function; the properties are proved about those.

**Mess hall** (`Rooms`, `MessHall`, `MessHallInvariant`, `MessHallSteps`, `MessHallTheorems`,
`MessHallProgress`, `MessHallCompletion`, `MessHallVain`, `MessHallPriority`, `MessHallExample`, `Hall`).
One supplier, N cooks, one supervisor and U + G students share a kitchen, a counter and tables. N, U, G, S, T, L and
the order of the supply are unbounded; `Config.Valid` holds the constraints of
midterm-project/solution/source/utils.c:50-91 that the proofs need and the contents of the supply file
(midterm-project/readme.md:28-32). `MessHall.Exec` is the protocol of
midterm-project/solution/source/program.c:296-516: the supplier waits on k.empty, stores, posts k.full; a cook tests
the remaining plates, advances the rota, waits on k.full, searches the kitchen (and gives the token back when it
finds nothing), posts k.empty, waits on c.empty, serves, posts c.full, and posts all of k.full on its way home; the
supervisor collects c.full of each kind, waits on s.empty, chooses a class, posts s.full; a student registers, posts
s.empty, waits on s.full, takes three plates, waits on t.empty, sits, posts t.empty.
`Hall` is the same on arrays and semaphores changed in place.

**Path server** (`GrowableQueue`, `PathSearch`, `Graph`, `PathCapacity`, `Cache`, `Decimal`, `Packet`,
`Server`, `ServerTheorems`, `ServerProgress`, `ServerExample`, `Pool`, `ConnectionHandler`). `Graph.Bfs`
runs on a queue of path queues and a marker array and is proved against `PathSearch.Bfs`, in which a vertex is
marked when a path that ends in it is dequeued; `PathCapacity` says which requests outgrow the slots of a path
queue. `Server.Exec` is one step of one connection handler in
final-project/solution/source/server.c:372-472, and `Pool` the same on the shared memory.

**Fast Fourier transform** (`ComplexNumbers`, `Fft`, `FourierLaws`). The in-place recursion on data and scratch
buffers that swap roles, over exact complex numbers; the twiddle factors are powers of a root w with w^(n/2) =
-1, and the recursive calls get w*w.

**Temporary file** (`TempFile`, `LineFifo`, `PointLine`). The file that two processes of homework-2 use as a
queue of lines: scans on a file with a cursor, the interleavings of locked sections, and the text of a line.

**Quartered product** (`Matrices`, `MatrixLaws`, `BlockProduct`, `MatrixPacket`, `MatrixSizes`, `MatrixPipes`).
Matrices as arrays, what their product is, the packets they travel in and how long these are, and the whole way
from operands through pipes of limited capacity to the merged product.

**Chefs** (`Desserts`, `DessertProtocol`, `DessertStreet`). Six chefs wait for two semaphores at once; the
wholesaler delivers pairs, and shutting down relies on every exit waking others.

**Florists** (`Florists`, `BoundedQueue`, `FloristMonitor`, `FloristTheorems`, `Market`). One mutex,
one condition variable, a queue per florist, and wake-ups that may come for no reason.

## Model

Rows that begin with **Result** are the main theorems; the others are the operations, and the steps on the way.

| member | source | states |
|---|---|---|
| `Hall.Room.constructor` | midterm-project/solution/source/program.c:143-178 | a new room is all empty slots; with a divisor the free-slot tokens are shared out with the remainder going to the first kinds, without one every group gets them all; the peek cell shows the number of plates |
| `Rooms.Next` | midterm-project/solution/source/program.c:261-268 | the slot returned is the first that holds the item; -1 exactly when none does |
| `Hall.Room.NextSlot` | midterm-project/solution/source/program.c:261-268 | the loop over the shared array finds that slot |
| `Hall.Room.PutItem` | midterm-project/solution/source/program.c:249-252 | one slot of the shared array is overwritten, the others stay |
| `Hall.Room.GetItem` | midterm-project/solution/source/program.c:254-259 | the item is returned, its slot is empty afterwards, the others stay |
| `Hall.Hall.constructor` | midterm-project/solution/source/program.c:181-194 | the four rooms and all processes, as created, are the initial state of the protocol |
| `Hall.Hall.SupplierStep` | midterm-project/solution/source/program.c:306-327 | one step of the supplier on the shared arrays and semaphores is the step of the protocol |
| `Hall.Hall.CookStep` | midterm-project/solution/source/program.c:381-432 | one step of a cook, including the failed search and the posts on the way home, is the step of the protocol |
| `Hall.Hall.SupervisorStep` | midterm-project/solution/source/program.c:500-513 | one step of the supervisor is the step of the protocol |
| `Hall.Hall.TakePlates` | midterm-project/solution/source/program.c:462-468 | the loop over the kinds takes the first plate of each and frees one slot of each share; it fails exactly when a kind is missing |
| `Hall.Hall.StudentStep` | midterm-project/solution/source/program.c:446-484 | one step of a student is the step of the protocol, and it fails exactly where an assertion fails |
| `Hall.Hall.Step` | midterm-project/solution/source/program.c:296-516 | **Result.** In a state that satisfies the invariant any enabled step of any process leads to the state the protocol prescribes, which satisfies it again, and no assertion or search fails |
| `MessHallInvariant.InitInv` | midterm-project/solution/source/program.c:143-194 | the initial state satisfies the invariant for every admissible configuration and supply order |
| `MessHallSteps.StepKeeps` | midterm-project/solution/source/program.c:296-516 | **Result.** Every step of every process keeps the invariant: token conservation in each room, the local counts of the cooks, permits and registrations, the rota, and the bound after departures |
| `MessHallSteps.RunInv` | midterm-project/solution/source/program.c:296-516 | every state of every run satisfies the invariant |
| `MessHallSteps.PermitReservesPlate` | midterm-project/solution/source/program.c:460-468 | at least as many plates of each kind lie on the counter as permits are out or being used |
| `MessHallSteps.SupplierFindsSlot` | midterm-project/solution/source/program.c:313-317 | a free-slot token of the kitchen guarantees a free slot, so the assertion holds |
| `MessHallSteps.CookFindsSlot` | midterm-project/solution/source/program.c:422-425 | a free-slot token of one kind guarantees a free slot on the counter |
| `MessHallSteps.SearchSucceeds` | midterm-project/solution/source/program.c:404-413 | until the first cook goes home every kitchen token stands for a plate of its kind, so no search comes back empty |
| `MessHallSteps.FirstDeparture` | midterm-project/solution/source/program.c:385-399 | when the first cook leaves, by either exit, fewer plates are still to be placed than there are cooks |
| `MessHallTheorems.CompleteOnce` | midterm-project/solution/source/program.c:375-426 | at most one cook can deliver a whole kind by itself, and then that kind is finished |
| `MessHallTheorems.GoneFinishKinds` | midterm-project/solution/source/program.c:398-399 | while plates are left in the kitchen, at most one cook has gone home per finished kind |
| `MessHallTheorems.NoPlateLeftBehind` | midterm-project/solution/source/program.c:375-435 | when all cooks have left the loop every plate of every kind has been placed |
| `MessHallTheorems.CooksHomeAllPlaced` | midterm-project/solution/source/program.c:375-435 | **Result.** Over every run: once all cooks are home all 3LM plates have been placed, the kitchen holds none, and those not on the counter have been taken by students |
| `MessHallTheorems.StuckBeforeDepartures` | midterm-project/solution/source/program.c:389-405 | the processes cannot all be blocked with the supervisor short of a plate while no cook has gone home: round-robin assignment keeps the kinds within one of each other |
| `MessHallTheorems.StuckAfterDepartures` | midterm-project/solution/source/program.c:431-432 | nor once a cook has gone home: its surplus tokens keep every other cook moving, and too few plates are unplaced for all to queue at the counter |
| `MessHallTheorems.NeverStuck` | midterm-project/solution/source/program.c:296-516 | a state that satisfies the invariant and in which somebody is not home has an enabled step |
| `MessHallTheorems.DeadlockFreedom` | midterm-project/solution/source/program.c:296-516 | **Result.** For every admissible configuration and supply order, every reachable state in which some process has not exited has an enabled step |
| `MessHallTheorems.SearchesSucceed` | midterm-project/solution/source/program.c:313-322 | **Result.** In every reachable state no assertion fails and none of the searches for a free slot, a free table or a plate of each kind that are about to run comes back empty |
| `MessHallTheorems.CapacityConserved` | midterm-project/solution/source/program.c:143-178 | **Result.** At all times free-slot tokens, occupied slots and processes in between add up to the capacity of the kitchen, of each share of the counter and of the tables |
| `MessHallTheorems.CounterDiversity` | midterm-project/solution/source/program.c:158-167 | a counter whose S slots are all occupied holds at least one plate of each kind |
| `MessHallTheorems.GraduatePriority` | midterm-project/solution/source/program.c:506-512 | **Result.** The supervisor permits an undergraduate exactly when every registered graduate already has a permit, and only when an undergraduate without one is waiting |
| `MessHallPriority.OvertakingMeans` | midterm-project/solution/source/program.c:452-512 | the program counter of graduates counts the registered graduates for whom no permit is out, so overtaking is: such a graduate waits while an undergraduate permit is issued and not used up |
| `MessHallPriority.OvertakingBegins` | midterm-project/solution/source/program.c:446-512 | **Result.** A step makes a fair state an overtaking one if and only if a graduate registers in it while an undergraduate permit is out |
| `MessHallPriority.RunOvertakes` | midterm-project/solution/source/program.c:446-512 | **Result.** A run has an overtaking state if and only if some step of it is such a registration |
| `MessHallTheorems.PermitsCovered` | midterm-project/solution/source/program.c:452-460 | at all times the permits out for a class are covered by registered students of that class who have not used one |
| `MessHallTheorems.EverybodyFed` | midterm-project/solution/source/program.c:446-491 | **Result.** When everybody has gone home each student has eaten L times and kitchen and counter hold no plate |
| `MessHallExample.UndergraduateOvertakes` | midterm-project/solution/source/program.c:460-512 | for every admissible configuration in which students of both classes eat, as the program demands (utils.c:55-92), a reachable state in which an undergraduate is about to take its food while a registered graduate waits without a permit |
| `MessHallExample.FairExactlyWithOneClass` | midterm-project/solution/source/program.c:446-512 | **Result.** No reachable state is overtaking, as midterm-project/readme.md:136-137 asks, if and only if only one class of students eats |
| `MessHallProgress.StepDescends` | midterm-project/solution/source/program.c:296-516 | every step but a fruitless search lowers the number of steps still to be made |
| `MessHallProgress.FruitlessNeedsDeparture` | midterm-project/solution/source/program.c:407-413 | a search finds nothing only after some cook has left the loop |
| `MessHallProgress.RunsAreBounded` | midterm-project/solution/source/program.c:296-516 | **Result.** Every run is at most as long as a bound computed from the parameters plus five steps for each fruitless search, and where it can go no further everybody has gone home |
| `MessHallCompletion.TakesTurn` | midterm-project/solution/source/program.c:381-415 | with a cook at home and all others resting, one turn of the rota gets somebody a plate, sends a cook home, or passes on with the rota advanced |
| `MessHallCompletion.ComesNearer` | midterm-project/solution/source/program.c:296-516 | in every state of the invariant in which somebody is not home some steps lower the rank, even when only fruitless searches are enabled |
| `MessHallCompletion.EveryRunCanComplete` | midterm-project/solution/source/program.c:296-516 | **Result.** Every run, whatever was scheduled so far, can be continued until everybody has gone home: no livelock cuts the end off |
| `MessHallVain.RoundInVain` | midterm-project/solution/source/program.c:381-415 | with the kitchen empty, plates to come and surplus tokens free, three fruitless searches of one cook lead back to the very same state |
| `MessHallVain.ReachesVain` | midterm-project/solution/source/program.c:296-516 | for every admissible configuration with a meal to serve, and every supply order, some run reaches such a state |
| `MessHallVain.SearchesWithoutEnd` | midterm-project/solution/source/program.c:404-413 | hence runs with more fruitless searches than any given number |
| `MessHallVain.BoundedExactly` | midterm-project/solution/source/program.c:296-516 | **Result.** The runs of a configuration are bounded in length if and only if it has no meal to serve, which the program does not accept |
| `GrowableQueue.Queue.constructor` | final-project/solution/source/queue.h:18-26 | a new queue is empty and has the requested capacity |
| `GrowableQueue.RingPush` | final-project/solution/source/queue.h:44-46 | writing the slot after the newest item, wrapped or not, appends to the contents |
| `GrowableQueue.RingPop` | final-project/solution/source/queue.h:53-55 | moving the front past the oldest item, wrapped or not, drops the head of the contents |
| `GrowableQueue.Queue.Enqueue` | final-project/solution/source/queue.h:40-47 | the contents gain the item at the end; the capacity doubles exactly when the queue was full, and the mutual recursion with the enlarging terminates |
| `GrowableQueue.Queue.Dequeue` | final-project/solution/source/queue.h:49-57 | the head is returned and removed; an empty queue gives the error and stays |
| `GrowableQueue.Queue.Back` | final-project/solution/source/queue.h:66-71 | the newest item, which stays |
| `GrowableQueue.Queue.Enlarge` | final-project/solution/source/queue.h:94-101 | **Result.** Contents and order are the same for any position of the front, and the capacity is doubled |
| `GrowableQueue.Queue.Copy` | final-project/solution/source/queue.h:83-91 | the copy has the same contents, provided its slots are at least as many as the capacity of the original |
| `Graph.Graph.constructor` | final-project/solution/source/graph.h:34-48 | a new graph has no edges |
| `Graph.Graph.AddEdge` | final-project/solution/source/graph.h:50-57 | j becomes the first neighbour of i, nothing else changes |
| `Graph.Graph.Edge` | final-project/solution/source/graph.h:76-86 | true exactly when j is a neighbour of i |
| `Graph.Graph.Expand` | final-project/solution/source/graph.h:125-139 | behind the queued paths come copies of the path extended by each unvisited neighbour, in list order; it stops at the first copy exactly when there is one to make and the path has outgrown the slots |
| `Graph.Graph.Round` | final-project/solution/source/graph.h:117-139 | one turn of the loop returns the path that ends in the target, or leaves the queue of the next round, from which the search has the same outcome and a smaller weight; it overruns exactly when that round of the search overflows |
| `Graph.Graph.Bfs` | final-project/solution/source/graph.h:88-156 | **Result.** For every graph and request, the search on queues of queues and a marker array returns what the search function returns, unless it overruns, which it reports exactly for the requests that do |
| `PathSearch.ExtensionHasRoom` | final-project/solution/source/graph.h:127-137 | only a path that misses some vertex is ever extended, since the vertices on a dequeued path are all visited |
| `PathSearch.ExpansionDecreases` | final-project/solution/source/graph.h:115-143 | replacing a path by its extensions lowers the sum of (D+1)^(V-length) over the queued paths, so the search ends although vertices are queued and expanded repeatedly |
| `PathSearch.FrontierAlong` | final-project/solution/source/graph.h:115-143 | along any walk from the start each vertex has been visited in time or the head of the queue is short enough |
| `PathSearch.SearchCorrect` | final-project/solution/source/graph.h:115-155 | from any such state the search returns a path to the target that no walk undercuts, or there is no walk |
| `PathSearch.BfsCorrect` | final-project/solution/source/graph.h:88-156 | **Result.** The result is non-null exactly when the target is reachable, and then a path along edges with the fewest vertices |
| `PathCapacity.AfterContinues` | final-project/solution/source/graph.h:115-143 | every state after n rounds has the same outcome as the whole search |
| `PathCapacity.NearFits` | final-project/solution/source/graph.h:133-134 | **Result.** No copy overflows when the target has a walk of at most as many vertices as there are slots, or everything reachable has |
| `PathCapacity.FarOverruns` | final-project/solution/source/graph.h:133-134 | **Result.** The search overruns when neither the target nor some reachable vertex lies within slots + 1 vertices |
| `PathCapacity.OverrunsExactly` | final-project/solution/source/graph.h:133-134 | **Result.** But for requests whose nearest or farthest relevant vertex is exactly slots + 1 away, the search overruns if and only if neither the target nor everything reachable is within slots vertices |
| `PathCapacity.OrderDecides` | final-project/solution/source/graph.h:133-134 | **Result.** In that gap two graphs with the same edges in another order differ: the search of one overruns, that of the other finds the target |
| `PathCapacity.SmallGraphsFit` | final-project/solution/source/graph.h:133-134 | with at most one vertex more than slots no copied path queue is larger than the new one |
| `PathCapacity.ChainsOverflow` | final-project/solution/source/graph.h:133-134 | on a chain with at least two vertices more than slots the search copies a path queue into one that is too small |
| `PathCapacity.SlotsSuffice` | final-project/solution/source/graph.h:133-134 | **Result.** The slots suffice for all graphs of a size if and only if the size is at most slots + 1, which for the 16 of the program means 17 vertices |
| `Cache.Cache.constructor` | final-project/solution/source/cache.h:27-37 | a new cache has an empty list for every vertex |
| `Cache.Cache.ToCache` | final-project/solution/source/cache.h:39-46 | the pair is answered with the new path, every other pair as before |
| `Cache.Cache.GetCache` | final-project/solution/source/cache.h:48-59 | the newest path stored for the pair, or nothing |
| `Cache.LookupHas` | final-project/solution/source/cache.h:48-59 | a path that is found was stored for that pair, and nothing is found only if none was |
| `Decimal.Digit` | final-project/solution/source/server.c:556-565 | the number of digits of the numeral, 0 for zero |
| `Decimal.ValueFromFront` | final-project/solution/source/server.c:584-586 | the digits of a numeral count in descending powers of ten |
| `Decimal.NumeralExactly` | final-project/solution/source/server.c:584-586 | a text starts with the numeral of n, without needless zeros, exactly when it is the decimal print of n and something that is not a digit |
| `Packet.PreparePacket` | final-project/solution/source/server.c:567-593 | the loop prints the path so that a reader of numerals, arrows and the full stop finds its vertices in order; without a path the text is "path not possible." |
| `Packet.RenderReads` | final-project/solution/source/server.c:581-588 | **Result.** A text reads as a path if and only if it is the packet of that path: numerals in order, "->" between them, "." at the end and nothing else |
| `Packet.AnswerInjective` | final-project/solution/source/server.c:567-593 | **Result.** Different outcomes of the search are answered with different texts, so the client can tell them apart |
| `Packet.PacketFits` | final-project/solution/source/server.c:569-577 | text and terminator fit in (digits of V + 4) bytes for each vertex of the path |
| `ConnectionHandler.Handle` | final-project/solution/source/server.c:378-411 | **Result.** One whole request, on any graph: the response is the text of the search for the pair, cached or not, and there is none exactly when the pair is not cached and its search overruns; the cache stays in agreement with the graph and afterwards answers the pair |
| `Pool.Pool.constructor` | final-project/solution/source/server.c:474-508 | the shared memory as created is the initial state of the protocol |
| `Pool.Pool.ReadDatabase` | final-project/solution/source/server.c:427-449 | each step of read_database on the shared counters, semaphores and cache is the step of the protocol |
| `Pool.Pool.SearchGraph` | final-project/solution/source/server.c:391-395 | waiting for the graph, searching it, printing the path and releasing the graph are steps of the protocol, except exactly for a search that overruns, which ends the program |
| `Pool.Pool.WriteDatabase` | final-project/solution/source/server.c:451-472 | each step of write_database, and the response, is the step of the protocol |
| `Pool.Pool.Act` | final-project/solution/source/server.c:329-472 | **Result.** Any enabled action of any thread, other than a search that overruns, leads to the state the protocol prescribes and keeps both invariants |
| `ServerTheorems.StepKeepsLocks` | final-project/solution/source/server.c:427-472 | every step of every thread keeps the five semaphores, the two counters and the groups that hold them in balance |
| `ServerTheorems.StepKeepsAnswers` | final-project/solution/source/server.c:372-413 | every step keeps the cache, the paths in hand and the responses equal to what a search would give |
| `ServerTheorems.RunInv` | final-project/solution/source/server.c:329-472 | **Result.** Both hold in every state of every run, for any number of threads |
| `ServerTheorems.WriterExcludesAll` | final-project/solution/source/server.c:459-465 | **Result.** No writer is in the cache together with a reader or another writer |
| `ServerTheorems.WritersShutReadersOut` | final-project/solution/source/server.c:427-436 | while the writer group holds read_try no reader is past it and none can pass |
| `ServerTheorems.FirstReaderNeverBlocks` | final-project/solution/source/server.c:431-435 | the first reader finds cache_mutex free whenever it waits on it |
| `ServerTheorems.BlockedLocksFree` | final-project/solution/source/server.c:427-472 | if every thread at work were blocked all five semaphores would be free, a contradiction the next result uses |
| `ServerTheorems.DeadlockFreedom` | final-project/solution/source/server.c:427-472 | **Result.** While some thread is at work some thread at work has an enabled step |
| `ServerTheorems.CachedAnswersAreFresh` | final-project/solution/source/server.c:378-413 | under every interleaving each response equals the text of a search for the requested pair |
| `ServerTheorems.ResponsesAreRight` | final-project/solution/source/server.c:378-413 | **Result.** A response is "path not possible." exactly when there is no path, and otherwise the path a reader finds in it is a shortest one for the pair |
| `ServerProgress.RunsAreBounded` | final-project/solution/source/server.c:329-413 | **Result.** For any number of threads, a run has at most 27 steps for each connection |
| `ServerProgress.QuietRunsAreBounded` | final-project/solution/source/server.c:372-413 | without new connections the threads stop after at most 26 steps each |
| `ServerProgress.EveryRequestIsAnswered` | final-project/solution/source/server.c:372-413 | **Result.** Where no thread can go on all are idle, there is a response for every connection, and every pair has been answered as often as it was asked for |
| `ServerExample.DuplicateEntries` | final-project/solution/source/server.c:378-408 | for every graph and pair and any number of threads from two on, a run in which two threads that both miss leave the same entry in the cache twice |
| `ServerExample.StoredOnceExactly` | final-project/solution/source/server.c:378-408 | **Result.** No pair is stored twice in any run, as final-project/readme.md:82 asks, if and only if there is at most one thread or the graph has no vertex |
| `Fft.Separate` | homework-1/solution/source/fft.c:13-18 | even entries go to the first half of the scratch range and odd ones to the second, nothing else is written |
| `Fft.TermsAreEval` | homework-1/solution/source/fft.c:22-31 | a coefficient of the transform is the value of the polynomial of the samples at a power of the root |
| `ComplexNumbers.TheseAreTheComplexNumbers` | homework-1/solution/source/fft.c:25-30 | the numbers are sums of reals and real multiples of a square root of -1, added and multiplied as such |
| `FourierLaws.DftIsLinear` | homework-1/solution/source/fft.c:22-31 | **Result.** The transform is linear in the samples |
| `FourierLaws.DftOfImpulse` | homework-1/solution/source/fft.c:22-31 | **Result.** Coefficient k of a single 1 at place j is the root to the power of jk |
| `Fft.EvalSplits` | homework-1/solution/source/fft.c:13-18 | the polynomial splits into its even and odd parts, taken at the square of the point |
| `Fft.Butterfly` | homework-1/solution/source/fft.c:22-31 | one coefficient of each half-size transform gives two coefficients of the full one |
| `Fft.TransformHalves` | homework-1/solution/source/fft.c:20-21 | after both recursive calls the halves of the scratch range hold the transforms of the even and odd samples: the second call leaves the result of the first alone |
| `Fft.Combine` | homework-1/solution/source/fft.c:22-31 | the loop over the butterflies leaves the full transform in the data range and writes nothing outside it |
| `Fft.CalcFft` | homework-1/solution/source/fft.c:9-35 | **Result.** For every power of two the data range ends up holding the discrete Fourier transform of what it held; nothing outside the data and scratch ranges is written, although the two recursive calls share the data range as scratch |
| `TempFile.File.NextEmpty` | homework-2/solution/source/program.c:362-384 | the loop over two-byte reads, with the stale second byte at an odd end, stops where the scan function says |
| `TempFile.File.NextAvailable` | homework-2/solution/source/program.c:459-475 | the loop stops at the first byte at an even offset that is not a space, or at the end |
| `TempFile.File.ReadLine` | homework-2/solution/source/program.c:510-530 | the bytes up to and including the newline; nothing if the file ends or 512 bytes pass first |
| `TempFile.File.Size` | homework-2/solution/source/program.c:626-637 | the number of bytes in the file, read 512 at a time |
| `TempFile.File.RemoveLine` | homework-2/solution/source/program.c:641-661 | everything after the first newline moves to the front and spaces fill the end; the length stays |
| `TempFile.File.Write10Points` | homework-2/solution/source/program.c:448-456 | the line is written where the scan stops |
| `TempFile.File.Read10Points` | homework-2/solution/source/program.c:483-486 | the line at the first place that is not a space, if there is one |
| `LineFifo.ScanFindsTheEnd` | homework-2/solution/source/program.c:362-384 | **Result.** For every text of lines, any number of spaces after it, any parity and any stale byte the scan of the writer stops exactly at the end of the text |
| `LineFifo.ReadsFirst` | homework-2/solution/source/program.c:483-486 | the reader gets the first line when there is one and nothing otherwise |
| `LineFifo.RemovesFirst` | homework-2/solution/source/program.c:641-661 | removal leaves the other lines in order followed by spaces |
| `LineFifo.AppendsLast` | homework-2/solution/source/program.c:448-456 | appending uses up spaces first and then lengthens the file |
| `LineFifo.StepKeeps` | homework-2/solution/source/program.c:448-507 | appending, reading and removing each keep the file equal to the lines not yet removed followed by spaces |
| `LineFifo.FirstInFirstOut` | homework-2/solution/source/program.c:448-507 | **Result.** In every interleaving of appends, reads and removals the consumed lines are a prefix of the produced ones |
| `LineFifo.FileIsTheRest` | homework-2/solution/source/program.c:448-507 | **Result.** In every interleaving the file is the lines not yet removed, in order, followed by spaces only |
| `LineFifo.ReaderFindsNext` | homework-2/solution/source/program.c:477-487 | the reader comes back with the next line exactly when one is there |
| `LineFifo.RemovesWhatWasRead` | homework-2/solution/source/program.c:483-494 | **Result.** The line removed is the one that was read, whatever was appended between the two locked sections |
| `PointLine.Points2Bytes` | homework-2/solution/source/program.c:420-434 | the loop writes the points and the equation as one line, which for ten points is exactly the line format |
| `PointLine.PointExactly` | homework-2/solution/source/program.c:430 | a text is that of a point if and only if it is a parenthesis, the numeral of x, a comma and a space, the numeral of y, a parenthesis, a comma and a space |
| `PointLine.LineExactly` | homework-2/solution/source/program.c:426-434 | **Result.** A text is a line if and only if it is ten such points, the slope with three decimals, an x, the intercept with a sign and three decimals, a line feed, and nothing else |
| `PointLine.ParseLine` | homework-2/solution/source/program.c:488-491 | the loop reads ten points and the equation, and gives up where an assertion would fail |
| `PointLine.LineReadsBack` | homework-2/solution/source/program.c:420-577 | **Result.** Ten points and an equation are read back from their line as they were written |
| `PointLine.LineTextIsLine` | homework-2/solution/source/program.c:420-456 | a line that fits its buffer has the shape the scans rely on: no two adjacent spaces, a parenthesis first, the only newline last |
| `PointLine.LineFits` | homework-2/solution/source/program.c:420-456 | with 32-bit coordinates and an equation in the range of a float the line fits the 512-byte buffer |
| `BlockProduct.CutPiece` | homework-3/solution/source/program.c:359-367 | the new matrix holds the entries of the given rows and columns |
| `BlockProduct.Multiply` | homework-3/solution/source/program.c:308-326 | the triple loop computes the matrix product, of which the next five rows say what it is |
| `MatrixLaws.ProductAdds` | homework-3/solution/source/program.c:308-326 | **Result.** The product is additive in either operand |
| `MatrixLaws.ProductScales` | homework-3/solution/source/program.c:308-326 | and homogeneous |
| `MatrixLaws.UnitRight` | homework-3/solution/source/program.c:308-326 | **Result.** A single 1 in row k and column c on the right puts column k of the left operand into column c, and zeros elsewhere |
| `MatrixLaws.UnitLeft` | homework-3/solution/source/program.c:308-326 | a single 1 in row r and column k on the left puts row k of the right operand into row r, and zeros elsewhere |
| `MatrixLaws.ProductWithIdentity` | homework-3/solution/source/program.c:308-326 | the identity matrix on either side changes nothing |
| `BlockProduct.Operands` | homework-3/solution/source/program.c:329-355 | the operands of each quarter are the halves of rows and columns it needs |
| `BlockProduct.MergeQuarters` | homework-3/solution/source/program.c:216-239 | each quarter is copied to its place, at the size of the first |
| `Matrices.QuarterEntry` | homework-3/solution/source/program.c:308-355 | an entry of the product of two operands is the entry of the whole product at its place |
| `Matrices.QuarteredProduct` | homework-3/solution/source/program.c:216-367 | **Result.** Merging the four products gives the product without its last row and column when n is odd, and it equals the whole product if and only if n is even (of the powers of two the program uses, all but 1) |
| `MatrixPipes.Pack` | homework-3/solution/source/program.c:443-484 | the loop writes the dimensions and the entries row by row and puts the length in front |
| `MatrixPipes.Unpack` | homework-3/solution/source/program.c:488-500 | the loop reads dimensions and entries back into a new matrix, or fails where a number is missing |
| `MatrixPipes.Pipe.Read` | homework-3/solution/source/utils.c:116-123 | one read() takes what is in the pipe: all that is asked for when no writer waits for room, otherwise some non-empty part of it |
| `MatrixPipes.ReadMatrix` | homework-3/solution/source/program.c:369-403 | one packet is read off the pipe in two reads, each of which must be full: whatever comes back is the packet at the front, its rest was no longer than the pipe is large, and with no writer waiting it comes back whenever the packet reader accepts it |
| `MatrixPacket.FixedReadsBack` | homework-3/solution/source/program.c:459-498 | an integer written with three decimals is read back, up to its separator |
| `MatrixPacket.NumbersExactly` | homework-3/solution/source/program.c:459-470 | **Result.** A text is a sequence of numbers if and only if it is their numerals in order, each with its sign when negative and followed by ".000;" |
| `MatrixPacket.PackedExactly` | homework-3/solution/source/program.c:443-484 | a packet is the numeral of the length of its body, a semicolon and the body, which is a sequence of numbers |
| `MatrixPacket.ItemsByPosition` | homework-3/solution/source/program.c:447-455 | these are the rows, the columns and then the entries row by row |
| `MatrixPacket.UnpackPack` | homework-3/solution/source/program.c:443-500 | a packet holds exactly its matrix, for all sizes and all integer entries |
| `MatrixPacket.ReadPacketOfPacked` | homework-3/solution/source/program.c:369-403 | **Result.** A packet at the front of a pipe is read whole, with nothing after it consumed, if and only if its body is shorter than 10^9 bytes, that is, its length and separator fit in ten bytes |
| `MatrixPacket.BackToBack` | homework-3/solution/source/program.c:369-426 | two such packets written as one text are read one after the other and nothing is left |
| `MatrixPipes.Write2Matrix` | homework-3/solution/source/program.c:407-426 | the two packets go down the pipe one right behind the other, at one go exactly when both together fit |
| `MatrixPipes.Quarter` | homework-3/solution/source/program.c:174-189 | a child that succeeds has read its operands, neither of them too long for the pipe, and sends their product back; it succeeds whenever no writer waits and both packets are short |
| `MatrixPipes.DistributedProduct` | homework-3/solution/source/program.c:191-213 | **Result.** The parent gets a result if the pipes take every text at one go, and only if no packet is too long to be read; whenever it gets one, that is the whole product if and only if n is even |
| `MatrixSizes.UpTo64Fits` | homework-3/solution/source/program.c:190-213 | **Result.** For characters, as the input files give them, and n up to 64 every text fits a pipe of 65536 bytes at one go |
| `MatrixSizes.From256Fails` | homework-3/solution/source/program.c:395-396 | **Result.** From n = 256 on, the size of the example at homework-3/readme.md:17, no operands come through such a pipe |
| `MatrixSizes.LargeNeverPasses` | homework-3/solution/source/program.c:395-396 | for any pipe: the operands of n by n matrices are never read when six bytes for each of their entries, and four more, exceed its capacity |
| `Desserts.SemOfIngredients` | homework-4/solution/source/program.c:192-199 | the loop collects the indices of the two ingredients of a mask, lower one first |
| `Desserts.PairOfMask` | homework-4/solution/source/program.c:43-50 | the mask of each chef holds the ingredients of its two semaphores and no other |
| `Desserts.Target` | homework-4/solution/source/program.c:235-263 | every valid line is the pair of one chef |
| `Desserts.ValidMeans` | homework-4/solution/source/program.c:235-263 | a line of two different letters of MFWS is what the assertions on a line accept |
| `Desserts.TargetInLetters` | homework-4/solution/source/program.c:25-50 | **Result.** In letters: a line is for the chef whose two letters it has, of MF, MW, MS, FW, FS and WS in the order of the chefs |
| `Desserts.PostedInLetters` | homework-4/solution/source/program.c:235-289 | a delivery posts the semaphores, and stores the bits, of its two letters in the order M, F, W, S and of no other |
| `DessertStreet.Street.SemPost` | homework-4/solution/source/utils.c:157-167 | both semaphores of the pair a mask stands for gain a unit |
| `DessertStreet.Street.SemWait` | homework-4/solution/source/utils.c:141-155 | both lose a unit |
| `DessertStreet.Street.WholesalerStep` | homework-4/solution/source/program.c:272-297 | one step of the wholesaler on the shared state is the step of the protocol |
| `DessertStreet.Street.ChefStep` | homework-4/solution/source/program.c:201-233 | one step of a chef, including the six posts on its way out, is the step of the protocol |
| `DessertStreet.Street.Act` | homework-4/solution/source/program.c:201-297 | **Result.** Any enabled step of any thread leads to the state the protocol prescribes and keeps its invariant |
| `DessertProtocol.OnlyOwnPair` | homework-4/solution/source/program.c:43-50 | of a single posted pair only the chef who lacks exactly that pair can take both halves |
| `DessertProtocol.StepKeeps` | homework-4/solution/source/program.c:201-297 | every step of every thread keeps the invariant, before and after the end is announced |
| `DessertProtocol.OnlyTheRightChef` | homework-4/solution/source/program.c:215-217 | before the end a waiting chef can be woken only by a delivery of exactly the two letters it lacks, which is still in the store |
| `DessertProtocol.TakesItsOwnPair` | homework-4/solution/source/program.c:163-172 | **Result.** The chef who empties the store finds the pair of letters it lacks there, from the current line, and is the only one at work |
| `DessertProtocol.InStep` | homework-4/solution/source/program.c:272-289 | **Result.** In every run the deliveries taken are the first ones of the supply, in order, each by the chef whose letters the line has, and exceed the desserts obtained by at most one |
| `DessertProtocol.NetOfTheGone` | homework-4/solution/source/program.c:224-230 | a chef that has exited posted every semaphore three times and took at most one unit itself since the end |
| `DessertProtocol.WaitersAreReleased` | homework-4/solution/source/program.c:222-230 | once the wholesaler has left, waiting chefs cannot all be blocked: the last pair wakes the first, and every exit wakes the others |
| `DessertProtocol.DeadlockFreedom` | homework-4/solution/source/program.c:201-297 | **Result.** A reachable state has no enabled step exactly when everybody has exited |
| `DessertProtocol.EveryRunCompletes` | homework-4/solution/source/program.c:201-297 | **Result.** Every run has at most 20n + 73 steps for a supply of n lines, and where it can go no further all chefs have exited, all desserts were obtained and every line was taken, in order, by the chef whose two letters it has |
| `Florists.ChebyshevIsAMetric` | homework-5/solution/source/program.c:400-408 | the distance is a metric |
| `Florists.ChebyshevIsSquare` | homework-5/solution/source/program.c:400-408 | the points within a distance r are those whose coordinates each differ by at most r |
| `Florists.FloristDelivers` | homework-5/solution/source/program.c:410-416 | true exactly when the florist sells a flower of that name |
| `Florists.SameNameByCharacter` | homework-5/solution/source/program.c:414 | two names are the same when they agree in every character, up to the 32nd |
| `Florists.FindFlorist` | homework-5/solution/source/program.c:418-435 | the nearest florist that sells the flower, the last one of several at the same distance, also in coordinates; the number of florists exactly when none sells it within the largest float |
| `Florists.NearestByCoordinates` | homework-5/solution/source/program.c:427-431 | **Result.** A florist is the nearest if and only if it lies in every square around the client, within the limit, that has a seller in it, and inside its border when that seller comes later |
| `Florists.NearestIsUnique` | homework-5/solution/source/program.c:427-431 | there is only one such florist |
| `BoundedQueue.ClientQueue.constructor` | homework-5/solution/source/queue.h:23-31 | a new queue is empty and has the requested capacity |
| `BoundedQueue.ClientQueue.Enqueue` | homework-5/solution/source/queue.h:43-50 | the item goes to the end; it is refused exactly when the queue is full |
| `BoundedQueue.ClientQueue.Dequeue` | homework-5/solution/source/queue.h:52-61 | the head is returned and removed; an empty queue gives the error |
| `BoundedQueue.ClientQueue.Front` | homework-5/solution/source/queue.h:63-68 | the head, which stays |
| `Market.Market.constructor` | homework-5/solution/source/program.c:271-296 | a queue and a thread for every florist, as created, are the initial state of the monitor |
| `Market.Test` | homework-5/solution/source/program.c:378-385 | a florist that holds the mutex waits, closes or takes its first client, according to queue and flag |
| `Market.Market.FloristStep` | homework-5/solution/source/program.c:372-393 | one step of a florist on the queues is the step of the monitor |
| `Market.Market.Broadcast` | homework-5/solution/source/program.c:355-359 | every florist that sleeps heads back for the mutex, the others stay where they are |
| `Market.Market.SupervisorStep` | homework-5/solution/source/program.c:117-137 | one step of the supervisor, choosing the florist by the search above, is the step of the monitor |
| `Market.Market.Act` | homework-5/solution/source/program.c:115-398 | **Result.** Any enabled step, or needless wake-up, leads to the state the monitor prescribes, keeps its invariant, and never finds a queue full |
| `FloristMonitor.EnqueuingFits` | homework-5/solution/source/program.c:285-285 | the chosen queue holds fewer clients than there are, so it has room |
| `FloristMonitor.StepKeeps` | homework-5/solution/source/program.c:115-398 | every step of supervisor and florists, and every needless wake-up, keeps mutual exclusion, the accounts of each florist and the rule on sleepers |
| `FloristTheorems.AssignedAre` | homework-5/solution/source/program.c:118-125 | florist f is assigned exactly the clients whose nearest seller it is |
| `FloristTheorems.ServedInOrder` | homework-5/solution/source/program.c:372-393 | **Result.** In every run the clients a florist has served are the first of those assigned to it, in order of arrival, and it is the nearest seller for each |
| `FloristTheorems.QueuesNeverFull` | homework-5/solution/source/queue.h:45-46 | no queue is full when the supervisor adds to it |
| `FloristTheorems.MutualExclusion` | homework-5/solution/source/program.c:121-124 | no two processes are in their guarded sections at once |
| `FloristTheorems.SleepersMissNothing` | homework-5/solution/source/program.c:378-379 | **Result.** A florist sleeps only while its queue is empty and the flag is down, unless the call that wakes it is due: no wake-up is lost |
| `FloristTheorems.ClosesWhenAllServed` | homework-5/solution/source/program.c:380-384 | a florist closes only after the flag is up and it has served all clients assigned to it |
| `FloristTheorems.DeadlockFreedom` | homework-5/solution/source/program.c:115-138 | **Result.** Until the supervisor is done some process can take a step that is not a needless wake-up |
| `FloristTheorems.EverybodyServed` | homework-5/solution/source/program.c:115-138 | **Result.** At the end every client has been served exactly once, in order of arrival, by its nearest seller |
| `FloristTheorems.EveryRunCompletes` | homework-5/solution/source/program.c:115-138 | **Result.** Every run is bounded by a number computed from the shop plus five steps for each needless wake-up, and where no process can step the supervisor is done |

## Left out

General:

- Sockets, daemon start-up, fork and exec, shared-memory and file descriptors, logging, `printf` text and argument
  parsing; of the arguments only the constraints they establish are kept.
- The body of a critical section is one step and its mutex has no step of its own, except where the mutex is what
  the property is about (the server's semaphores, the florists' mutex). The only nested mutexes are a peek mutex
  inside a room mutex, always in that order.
- Counters, semaphores and sizes are unbounded integers: overflow of a C integer is not modelled.
- Allocation failure, string terminators and buffer growth; texts and packets are sequences of characters.

Mess hall:

- `s.room`, the number of students at the counter, is only printed and is not part of the state.
- Termination outright fails: once a cook has gone home, another may take a surplus token, find nothing and give it
  back any number of times while the supplier is not scheduled. `MessHallVain` gives such runs for every configuration
  with a meal to serve and `MessHallCompletion` shows that each can still be completed. Fair scheduling is not modelled.
- MessHallTheorems.GraduatePriority: is about the moment a permit is issued. midterm-project/readme.md:136-137
  says that no undergraduate is serviced while a graduate waits at the counter; in the code an undergraduate that
  already holds a permit still takes its food when a graduate registers afterwards. `MessHallPriority` says exactly
  when that begins, and `MessHallExample` for which configurations it can happen.
- `Config.Valid` keeps N > 2, S > 3, T > 1 and the supply; U > G, M > N, M > T and L >= 3 are not needed by any proof.
- Hall.Hall.StudentStep: where the assertion on a missing plate fails the plates already taken are gone from the
  counter; the state after a failure is not specified, and no reachable state fails.

Path server:

- Graph.Graph.Bfs: takes the number of slots of a path queue as a parameter; the program fixes it at 16
  (final-project/solution/source/graph.h:106 and 133). It stops where the source would write past the end of a path
  queue; what happens to the memory then is not part of the model. `PathCapacity` says which requests that are, up to a
  gap of one vertex in which the order of the adjacency lists decides.
- Server.Exec: takes every search to end; `Pool` stops at one that overruns, so the theorems about runs of the server
  are about those in which none does.
- Freeing of dequeued paths (graph.h:141-153) and the `visited` array inside the graph, which the search does not use.
- Requested vertices are taken to be in the graph; the program does not check them.
- Cache uniqueness: the handler does not look again after a miss, so with two threads the cache can store a pair twice,
  although final-project/readme.md:82 asks for no duplicate entries; `ServerExample` has the runs and the exact
  condition. What is claimed for all runs is that the entries for a pair agree.
- Printing a path, which touches nothing shared, is part of the step that searches for it.
- Reading the graph file, the client queue, the dynamic pool and its resizing, and shutdown.

Fourier transform:

- Fft.CalcFft: over exact numbers; rounding and the computation of sine and cosine are not modelled.
- The programs around it (file slots, locking, waiting) and their layout heuristics.

Temporary file:

- Signals, sigsuspend and the end of the input: that every produced line is eventually consumed is not claimed.
- The least-squares arithmetic and the error metrics; slope and intercept are numbers of thousandths, so a degenerate
  set of points, for which the program prints a text it cannot read back, is outside the model.
- TempFile.File.NextAvailable: the branch at homework-2/solution/source/program.c:470-473 can never be taken, since the
  test before it has found a space, and has no counterpart.
- The two descriptors have one cursor here: every locked section begins by moving its own to the start.
- TempFile.File.ReadLine: a line of exactly 512 bytes, which the program stores one byte past its buffer, is
  read; no line produced is that long.

Quartered product:

- MatrixPacket.StrToFloat: is defined on the texts that stand for integers, which are all a matrix of this program
  can hold; other fractions are refused.
- MatrixPipes.DistributedProduct: serves the children one after the other; each has its own two pipes, so the order does
  not matter. The capacity of a pipe is a parameter, since the system sets it and not the program. When the texts of a
  child do not fit at one go but no packet is too long, the result depends on what each read() happens to find; the
  contract then says nothing about success.
- Singular values (`svd.c`), reading the input characters, signals and waiting for the children.

Chefs:

- Preparation times and the text of the messages; the messages about deliveries taken are the `log` of the model.
- A supply without any line, for which the program would post an uninitialised pair, and lines that its assertions
  refuse.

Florists:

- FloristMonitor.Shop.Valid: every ordered flower is sold by somebody within the largest float; for a client nobody
  serves the program indexes past its list of florists.
- Preparation times, statistics, parsing of the data file and the interrupt handler; distances are exact.
