# Protocols of the operating-systems course, modelled in Dafny

The course repository holds small concurrent and network programs in C. Each of
them keeps an invariant over every interleaving, and most do so for any number of
threads. This project models them as state machines, one step for each atomic
action or critical section, and proves what holds in every state of every run,
how long a run can be, and where it can stop.

| file | program |
|---|---|
| `Futex.dfy` | the futex mutex (`sop2/wyk/sync/code/futex.c`) |
| `Peterson.dfy` | Peterson's lock around bank transfers (`peterson_atomic.c`) |
| `ReadersWriters.dfy` | readers and writers with one condition variable (`readers_writers_cv.c`) |
| `SemaphoreBuffer.dfy`, `ConditionBuffer.dfy` | the two bounded buffers (`bounded_buffer_sem.c`, `bounded_buffer_cv.c`) |
| `Philosophers.dfy` | the dining philosophers (`dining_philosophers.c`) |
| `Shop.dfy`, `Inversions.dfy` | the night shift that sorts the shelves (`zadania_6/w6/sop-shop.c`) |
| `Headquarters.dfy` | the staff map, with a queue and with a stack (`zadania_8`) |
| `Wire.dfy`, `TransferServer.dfy`, `TransferClient.dfy`, `Transfer.dfy`, `Redelivery.dfy` | the UDP file transfer: datagrams, server, clients, all of them on a bad network, and what that network can still do (`lab_8/zadanie_1`, `sop2/lab/l7`) |
| `Students.dfy` | student threads under deferred cancellation (`sop1/lab/l3/prog20.c`) |
| `Routing.dfy` | messages that walk at random through a graph (`ziemniak.c`) |
| `Runs.dfy`, `Sums.dfy`, `Ring.dfy`, `Modulo.dfy`, `FiniteSets.dfy`, `Wrappers.dfy` | what these share |

How to read a model file. `State`, `Init` and `Next` are the state machine; a
thread has a program counter. `Inv` is the inductive invariant, and `IsRun(run)`
says that `run` is a finite run from an initial state. A theorem about `run[i]`
for all runs and all `i` is a theorem about every reachable state. Where a theorem
takes a state `s` with `Inv(s)`, the file's `SafetyInEveryRun` makes it one about
every reachable state. The file of a program ends with a class that holds the
program's own variables and arrays, changed in place. Where the class has a `View`,
its methods are proved to take exactly a step of the state machine, or of the
specification; the staff map's class and the file class of the transfer client have
contracts of their own. (`Transfer.dfy` puts together the clients and the server of
the two files before it, and `Redelivery.dfy` extends its runs.)

Conventions. Waiting on a condition variable or a futex can end without a wake-up.
FUTEX_WAIT compares and sleeps in one step. A plain `x++` on shared data is a load
and a store. The two reads in `while (flag[j] && turn == j)` are two steps. `rand`
is any choice. Sleeping does nothing. What the transfer server prints is logged.
A critical section under a mutex that protects everything it touches is one step;
where several mutexes matter (the shop, the students) taking and releasing them
are steps of their own. Thread counts, buffer sizes, iteration counts and file
sizes are parameters, so the results hold for all of them.

Facts about the programs that may surprise:

- `client_work` calls `read` once for each chunk and takes a short read for the end
  of the file. It transmits the whole file if and only if no call returns fewer
  bytes than asked for before the end (`SingleReadsSuffice`); `doClient` with
  `bulk_read` always does.
- A finished transfer has been printed whole, but any file can be printed any number
  of times, because the network can deliver all its packets again
  (`PrintedAnyNumberOfTimes`). A further session prints something if and only if
  packet 1 is served again while the client's slot is at 0, or it has none and there
  is room (`LaterSessionPrintsIff`).
- A slot is not always freed, because the server frees it before its last echo has
  arrived. If that echo is lost, the repeated last packet of a file of two or more
  packets takes a slot at 0 (`SlotIsLeaked`), which stays until packet 1 is served
  again (`SlotStaysAtZero`, `SlotFreedIff`).
- The printed text is the file exactly for files without a NUL byte.
- One unit can be on several cells of the staff map at once. The number of workers
  is the sharp bound (`CopiesAreBounded`, `BoundIsSharp`), and a unit whose reports
  are not handled at the same time is on one cell at most (`OneCellWithoutOverlap`).
- The semaphore buffer rounds each consumer's share down. Every process ends if and
  only if the items left over fit into the buffer (`MaximalRuns`).
- Both readers and writers can starve. A thread can be kept out for ever by any one
  thread it cannot be inside with, and by no other (`StarvesIffConflict`).
- In `ziemniak.c` a node closes its own pipe for writing, so a message for which an
  edge from a node to itself is drawn is lost. The reported paths are exactly the
  routes that use no such edge (`ReportableIffRoute`).

## Model

| member | source | states |
|---|---|---|
| Futex.SafetyInEveryRun | sop-site/content/sop2/wyk/sync/code/futex.c:23-62 | In every state, for any number of threads: the word is 0, 1 or 2; it is non-zero exactly when one unique thread holds the lock or is between the subtraction and the store of 0; if a thread sleeps, the word is 2, or a wake-up is under way, or an awake thread is about to exchange 2; and the counter plus the effects still owed is constant although `++` is a load and a store |
| Futex.ActKeepsExclusion | sop-site/content/sop2/wyk/sync/code/futex.c:23-42 | Each atomic action of `lock`, `unlock` or a counter update keeps exclusion, although an unlock passes through the value 1 with no owner |
| Futex.ActKeepsWakeups | sop-site/content/sop2/wyk/sync/code/futex.c:28-41 | Each atomic action keeps it so that no sleeper is forgotten |
| Futex.NeverAllAsleep | sop-site/content/sop2/wyk/sync/code/futex.c:23-42 | While a thread is unfinished, some thread can act without a spurious wake-up |
| Futex.RunsAreBounded | sop-site/content/sop2/wyk/sync/code/futex.c:23-62 | Under every schedule, fair or not, a run has a bounded number of steps, and each spurious wake-up adds at most four |
| Futex.MaximalRunsFinish | sop-site/content/sop2/wyk/sync/code/futex.c:44-93 | A run that cannot go on has all threads done and the counter at increments minus decrements |
| Futex.AloneStaysOnFastPath | sop-site/content/sop2/wyk/sync/code/futex.c:23-42 | A thread that is alone never exchanges, waits, stores 0 or wakes; the word is only ever 0 or 1, and each iteration takes exactly four atomic actions |
| Futex.WaitersMarkTheWord | sop-site/content/sop2/wyk/sync/code/futex.c:28-31 | In every run a thread gets to the FUTEX_WAIT call only by an exchange that found the lock taken and left the word at 2 |
| Futex.FutexProgram.Perform | sop-site/content/sop2/wyk/sync/code/futex.c:23-62 | The in-place form of one action takes exactly the step of the state machine |
| Futex.FutexProgram.Execute | sop-site/content/sop2/wyk/sync/code/futex.c:64-93 | Any schedule keeps the invariant and the balance, and if it ends all threads the counter is what was owed |
| Peterson.SafetyInEveryRun | sop-site/content/sop2/wyk/sync/code/peterson_atomic.c:17-38 | With the loop condition as two reads: never both threads inside, a thread that has set `turn` is overtaken at most once, no balance is negative |
| Peterson.MoneyIsConserved | sop-site/content/sop2/wyk/sync/code/peterson_atomic.c:31-69 | Balances plus amounts in flight always add up to the initial total; with nobody inside, the balances alone do |
| Peterson.TransfersAreSerial | sop-site/content/sop2/wyk/sync/code/peterson_atomic.c:31-58 | In every run the transfers happen as if one after the other, each as a whole, in the order in which the threads leave: with nobody inside, the balances are what the orders served make of the initial ones |
| Peterson.TransferIsMade | sop-site/content/sop2/wyk/sync/code/peterson_atomic.c:31-58 | In every run, between a thread's check and the lowering of its flag the balances change by exactly what it ordered when it last chose: the amount leaves the source and reaches the destination, or nothing changes if the source has too little |
| Peterson.EveryOrderIsServed | sop-site/content/sop2/wyk/sync/code/peterson_atomic.c:42-58 | Each iteration ends in one order served; when both threads are done, as many have been served as the two were given iterations |
| Peterson.SpinningEnds | sop-site/content/sop2/wyk/sync/code/peterson_atomic.c:17-22 | While both threads try, `turn` does not change and the thread it favours acts at most once, under every schedule; its second action takes it inside, so the two never spin on together |
| Peterson.LoneThreadEnters | sop-site/content/sop2/wyk/sync/code/peterson_atomic.c:17-22 | While the partner's flag is down, a thread in its spin loop acts at most once before the action that takes it inside, under every schedule |
| Peterson.Transfer | sop-site/content/sop2/wyk/sync/code/peterson_atomic.c:31-38 | Refuses exactly when the source has too little and then changes nothing; otherwise moves the amount; keeps the total in every case |
| Peterson.TotalBalance | sop-site/content/sop2/wyk/sync/code/peterson_atomic.c:63-69 | The loop computes the sum of the balances |
| Peterson.Bank.LockAction | sop-site/content/sop2/wyk/sync/code/peterson_atomic.c:17-26 | Choosing an order, raising the flag, setting `turn` or lowering the flag, in place, is the step of the state machine |
| Peterson.Bank.SpinAction | sop-site/content/sop2/wyk/sync/code/peterson_atomic.c:21 | One of the two reads of the loop condition, in place, is the step of the state machine |
| Peterson.Bank.WriteBalance | sop-site/content/sop2/wyk/sync/code/peterson_atomic.c:35-36 | One store of a balance, in place, is the step of the state machine |
| ReadersWriters.SafetyInEveryRun | sop-site/content/sop2/wyk/sync2/code/readers_writers_cv.c:18-75 | The counts are the numbers of readers and writers inside; at most one writer, and then no reader; no reader waits while no writer is inside; at an empty monitor with waiters some writer is already woken |
| ReadersWriters.InsideTogether | sop-site/content/sop2/wyk/sync2/code/readers_writers_cv.c:25-35 | Two threads inside at once are both readers |
| ReadersWriters.LastSignalReachesWriter | sop-site/content/sop2/wyk/sync2/code/readers_writers_cv.c:66-72 | In every run, whichever waiter the single signal of the last reader reaches is a writer, and it can enter at once; nobody else is woken |
| ReadersWriters.NeverAllWaiting | sop-site/content/sop2/wyk/sync2/code/readers_writers_cv.c:24-72 | It never happens that every thread waits |
| ReadersWriters.NoUpdateIsLost | sop-site/content/sop2/wyk/sync2/code/readers_writers_cv.c:33-39 | The shared value is its first value plus ten for each completed write, although a write is a load and a store outside the mutex |
| ReadersWriters.EveryVisitUpdates | sop-site/content/sop2/wyk/sync2/code/readers_writers_cv.c:30-42 | Every visit of a writer adds ten, once: the shared value is its first value plus ten for each exit section that writers have taken and for a writer about to take one |
| ReadersWriters.ReaderSeesOneValue | sop-site/content/sop2/wyk/sync2/code/readers_writers_cv.c:53-72 | As long as some reader is inside, the shared value does not change |
| ReadersWriters.StarvesIffConflict | sop-site/content/sop2/wyk/sync2/code/readers_writers_cv.c:24-72 | For any number of readers and writers: a thread can be turned away any number of times, and never get in, while another one takes as many turns, if and only if there is a thread it cannot be inside with (for a writer any other thread, for a reader a writer) |
| ReadersWriters.KeepsOutFor | sop-site/content/sop2/wyk/sync2/code/readers_writers_cv.c:24-72 | Of two threads that cannot be inside together, reader or writer, each can keep the other out: for every number of turns there is a run in which it takes them while the other is turned away one time more and is never inside |
| ReadersWriters.TurnedAwayByConflict | sop-site/content/sop2/wyk/sync2/code/readers_writers_cv.c:26-29 | In every run, a thread that is turned away cannot be inside with some other thread |
| ReadersWriters.Monitor.Broadcast | sop-site/content/sop2/wyk/sync2/code/readers_writers_cv.c:41 | The loop wakes every waiting thread and changes nothing else |
| ReadersWriters.Monitor.WriterActs | sop-site/content/sop2/wyk/sync2/code/readers_writers_cv.c:24-42 | A writer's critical section or access, in place, is the step of the state machine |
| ReadersWriters.Monitor.ReaderActs | sop-site/content/sop2/wyk/sync2/code/readers_writers_cv.c:53-72 | A reader's critical section or read, in place, is the step of the state machine |
| SemaphoreBuffer.SafetyInEveryRun | sop-site/content/sop2/wyk/sync2/code/bounded_buffer_sem.c:22-56 | Slot tokens in the semaphores and in transit add up to the size; the mutex has one holder; the items taken are a prefix of those put, and the ring holds the rest; each producer's items went in once and in order |
| SemaphoreBuffer.MutexExcludes | sop-site/content/sop2/wyk/sync2/code/bounded_buffer_sem.c:26-52 | Of all producers and consumers at most one is between taking and posting the mutex |
| SemaphoreBuffer.RoomAndStock | sop-site/content/sop2/wyk/sync2/code/bounded_buffer_sem.c:26-51 | A producer about to store finds a slot with nothing unread in it, a consumer about to read finds an item |
| SemaphoreBuffer.RunsAreBounded | sop-site/content/sop2/wyk/sync2/code/bounded_buffer_sem.c:22-56 | Under every schedule at most six operations for each item to be put or taken |
| SemaphoreBuffer.StuckShape | sop-site/content/sop2/wyk/sync2/code/bounded_buffer_sem.c:22-56 | When nobody can go on, everybody is done or waits on a slot semaphore that is 0, and all tokens are in the semaphores |
| SemaphoreBuffer.MaximalRuns | sop-site/content/sop2/wyk/sync2/code/bounded_buffer_sem.c:40-56 | A run that cannot go on has finished its consumers, which have taken all items but the total modulo the number of consumers; it has finished its producers if and only if that remainder fits into the buffer; without a remainder, every item of every producer has been taken exactly once and in order |
| SemaphoreBuffer.EachTakesItsShare | sop-site/content/sop2/wyk/sync2/code/bounded_buffer_sem.c:40-56 | In a run that cannot go on each consumer has taken the total divided by the number of consumers, rounded down |
| SemaphoreBuffer.SharedBuffer.ProducerAction | sop-site/content/sop2/wyk/sync2/code/bounded_buffer_sem.c:22-38 | A producer's next operation, in place, is the step of the state machine |
| SemaphoreBuffer.SharedBuffer.ConsumerAction | sop-site/content/sop2/wyk/sync2/code/bounded_buffer_sem.c:40-56 | A consumer's next operation, in place, is the step of the state machine |
| ConditionBuffer.SafetyInEveryRun | sop-site/content/sop2/wyk/sync2/code/bounded_buffer_cv.c:28-63 | `items`, `in`, `out` and `size` represent a FIFO queue; what was consumed is 0, 1, 2, … so far; the two processes are never both in a wait set |
| ConditionBuffer.RunsAreBounded | sop-site/content/sop2/wyk/sync2/code/bounded_buffer_cv.c:28-63 | At most six steps an item plus two, and two more for each spurious wake-up |
| ConditionBuffer.MaximalRunsConsumeAll | sop-site/content/sop2/wyk/sync2/code/bounded_buffer_cv.c:28-63 | A run that cannot go on has consumed exactly 0 to iterations - 1 in order: no signal is missed |
| ConditionBuffer.Context.ProducerSection | sop-site/content/sop2/wyk/sync2/code/bounded_buffer_cv.c:33-44 | The producer's critical section, in place, is the step of the state machine |
| ConditionBuffer.Context.ConsumerSection | sop-site/content/sop2/wyk/sync2/code/bounded_buffer_cv.c:50-61 | The consumer's critical section, in place, is the step of the state machine; it prints what it logs as taken |
| Ring.PutKeeps | sop-site/content/sop2/wyk/sync2/code/bounded_buffer_sem.c:29-31 | A store into a ring with room, and the new index, overwrite nothing that is still to be taken |
| Ring.TakeKeeps | sop-site/content/sop2/wyk/sync2/code/bounded_buffer_cv.c:54-55 | A read from a ring that is not empty gives the oldest item |
| Philosophers.SafetyInEveryRun | sop-site/content/sop2/wyk/deadlocks/code/dining_philosophers.c:17-51 | Every chopstick is on the table or in exactly one hand, for any number of philosophers |
| Philosophers.NeighboursExclude | sop-site/content/sop2/wyk/deadlocks/code/dining_philosophers.c:20-35 | A philosopher that eats has a right neighbour without its left chopstick |
| Philosophers.StuckIffAllHoldLeft | sop-site/content/sop2/wyk/deadlocks/code/dining_philosophers.c:20-35 | A reachable state with unfinished philosophers is stuck if and only if everybody holds exactly the left chopstick |
| Philosophers.DeadlockReachable | sop-site/content/sop2/wyk/deadlocks/code/dining_philosophers.c:20-51 | For every number of philosophers with something to do there is a run into that state |
| Philosophers.MaximalRunsFinishOrDeadlock | sop-site/content/sop2/wyk/deadlocks/code/dining_philosophers.c:20-35 | Every run is finite, and its last state is stuck if and only if all are done or all hold the left chopstick |
| Philosophers.RunLength | sop-site/content/sop2/wyk/deadlocks/code/dining_philosophers.c:20-35 | The length of a run is exactly the operations done: four for each round |
| Philosophers.Table.Perform | sop-site/content/sop2/wyk/deadlocks/code/dining_philosophers.c:17-38 | One semaphore operation, in place, is the step of the state machine |
| Shop.SafetyInEveryRun | zadania_6/w6/sop-shop.c:82-158 | Mutexes are held by the workers whose program counter says so, low shelf first, and never a shelf with the control mutex; the shelves with half-done swaps completed are the target array, which is a permutation; reports are counted |
| Shop.ShelvesAreAPermutation | zadania_6/w6/sop-shop.c:98-115 | Whenever no swap is half done the shelves hold 1 to n once each |
| Shop.PairIsInOrder | zadania_6/w6/sop-shop.c:105-115 | In every run, when a worker is about to unlock its pair of shelves, the lower one holds no more than the higher one |
| Shop.RoundSortsPair | zadania_6/w6/sop-shop.c:98-115 | From the draw to the unlocking of a round: the smaller of the two values found on the shelves drawn ends on the lower one and the larger on the higher one, whatever the others do meanwhile |
| Shop.TenRounds | zadania_6/w6/sop-shop.c:89-116 | Every worker takes at most ten rounds, and exactly ten if it leaves its loop while the shift is on |
| Shop.NoRoundAfterTheEnd | zadania_6/w6/sop-shop.c:90-96 | A worker that is outside its rounds when the shift has been stopped begins no further one |
| Shop.SwapsArePaidFor | zadania_6/w6/sop-shop.c:109-112 | Swaps begun plus inversions left never grow |
| Shop.SwapsAreBounded | zadania_6/w6/sop-shop.c:89-116 | The swaps of a run, with any number of workers, are at most the inversions at its start, so at most n(n-1)/2 |
| Shop.SortedIsStable | zadania_6/w6/sop-shop.c:105-115 | No step changes shelves that are in order |
| Shop.SortedStaysSorted | zadania_6/w6/sop-shop.c:89-116 | Once sorted with no swap half done, the shelves stay the same for the rest of the run and no swap begins |
| Shop.ChainEnds | zadania_6/w6/sop-shop.c:102-107 | A chain of waiting workers climbs the shelves and ends with one that can act |
| Shop.NoDeadlock | zadania_6/w6/sop-shop.c:89-157 | While a worker is unfinished some process can act |
| Shop.WorkerTakesBoundedSteps | zadania_6/w6/sop-shop.c:89-120 | Each worker takes at most 102 actions in any run |
| Shop.WorkersTakeBoundedSteps | zadania_6/w6/sop-shop.c:89-120 | A run has at most 102 steps for each worker in all, besides those of the manager |
| Shop.QuietShopIsFinished | zadania_6/w6/sop-shop.c:118-139 | When no worker can act and the manager is outside, all workers are done and `ile == m` |
| Shop.StockShelves | zadania_6/w6/sop-shop.c:205-209 | For all values of `rand`, the shelves start as a permutation of 1 to n |
| Shop.Shuffle | zadania_6/w6/sop-shop.c:56-63 | Shuffling keeps the multiset |
| Shop.Swap | zadania_6/w6/sop-shop.c:49-54 | The two entries change places and nothing else changes, also for the same index twice |
| Shop.NightShift.LockAction | zadania_6/w6/sop-shop.c:98-107 | Picking and locking, in place, is the step of the state machine |
| Shop.NightShift.SwapAction | zadania_6/w6/sop-shop.c:109-112 | Comparing and each half of a swap, in place, is the step of the state machine |
| Shop.NightShift.UnlockHighAction | zadania_6/w6/sop-shop.c:114 | Unlocking the higher shelf, in place, is the step of the state machine |
| Shop.NightShift.UnlockLowAction | zadania_6/w6/sop-shop.c:115-116 | Unlocking the lower shelf and ending the round, in place, is the step of the state machine |
| Shop.NightShift.ControlAction | zadania_6/w6/sop-shop.c:90-120 | The worker's actions at the control mutex, in place, are the step of the state machine |
| Shop.NightShift.LooksSorted | zadania_6/w6/sop-shop.c:142-148 | The manager's scan of neighbours, while nobody changes the shelves, says sorted if and only if there is no inversion |
| Shop.NightShift.ManagerAction | zadania_6/w6/sop-shop.c:132-156 | The manager ends exactly when all have reported or its scan, taken as undisturbed by workers, finds the shelves sorted, and only then clears `running`; its action is a step of the state machine |
| Inversions.SwapLowersInversions | zadania_6/w6/sop-shop.c:109-110 | Exchanging two entries that are out of order, however far apart, lowers the number of inversions and keeps the multiset |
| Inversions.InversionsBound | zadania_6/w6/sop-shop.c:109-110 | At most n(n-1)/2 inversions |
| Inversions.NeighboursDecide | zadania_6/w6/sop-shop.c:142-148 | All neighbours are in order if and only if no pair at all is out of order |
| Headquarters.SafetyInEveryRun | zadania_8/zadanie1_buforcykliczny.c:104-177 | Names are distinct; cells hold known numbers; each worker is the author of at most one cell of each unit and of none it has just wiped |
| Headquarters.CopiesAreBounded | zadania_8/zadanie1_buforcykliczny.c:163-177 | No unit is on more cells than there are workers, each put there by a different worker; queue or stack |
| Headquarters.BoundIsSharp | zadania_8/zadanie1.c:258-270 | With the queue and with the stack, for every number of workers up to 10000 a run puts one unit on exactly that many cells |
| Headquarters.OneCellWithoutOverlap | zadania_8/zadanie1_buforcykliczny.c:163-177 | If the handlings of a unit never overlap, it is on at most one cell in every state |
| Headquarters.MapShowsReports | zadania_8/zadanie1_buforcykliczny.c:119-177 | A unit is only on cells that a received report gave for its name |
| Headquarters.TakenReportIsDrawn | zadania_8/zadanie1_buforcykliczny.c:119-177 | In every run, a report in range, of either side, that a worker has taken is on the map, drawn by that worker, as soon as the worker is idle again, unless the registry is full of other names |
| Headquarters.UselessIsIgnored | zadania_8/zadanie1_buforcykliczny.c:131-133 | In every run, a worker with a text that is no report or is out of range is at its check and idle after it, and neither registry nor map changes |
| Headquarters.TakenInOrder | zadania_8/zadanie1_buforcykliczny.c:119-126 | With the ring, the reports that found fewer than sixteen waiting are taken in the order in which they arrived: nothing is lost, repeated or overtaken |
| Headquarters.TakenOnce | zadania_8/zadanie1_buforcykliczny.c:119-211 | Queue or stack, every report that found room is taken once or still waits |
| Headquarters.NewestIsTakenNext | zadania_8/zadanie1.c:205-300 | With the stack, a report that finds room is the next one taken, and leaves those below it as they were |
| Headquarters.NumbersAreForEver | zadania_8/zadanie1_buforcykliczny.c:138-155 | The registry only grows, so a number means the same name for ever |
| Headquarters.Registered | zadania_8/zadanie1_buforcykliczny.c:141-155 | The number returned belongs to the name; -1 exactly when it is unknown and the registry full; nothing registered is lost |
| Headquarters.Staff.Enqueue | zadania_8/zadanie1_buforcykliczny.c:199-217 | The ring with head, tail and count is a FIFO queue of sixteen; a report is dropped exactly when it is full |
| Headquarters.Staff.Dequeue | zadania_8/zadanie1_buforcykliczny.c:119-126 | The oldest report is taken |
| Headquarters.Staff.Register | zadania_8/zadanie1_buforcykliczny.c:138-155 | The search and entry loop, in place, is the specified registration |
| Headquarters.Staff.EraseRow | zadania_8/zadanie1_buforcykliczny.c:165-171 | One row is wiped of one unit and no other cell changes |
| Headquarters.Staff.Draw | zadania_8/zadanie1_buforcykliczny.c:162-177 | An undisturbed worker leaves its unit on the new cell and nowhere else, and moves no other unit except off that cell |
| Wire.NetworkByteOrder | lab_8/zadanie_1/client.c:36-41 | The four bytes of a 32-bit integer, two's complement for a negative one, are its quotients by 2^24, 2^16, 2^8 and 1 modulo 256, in this order |
| Wire.DecodeEncode | lab_8/zadanie_1/client.c:41 | `ntohl` undoes `htonl` on every 32-bit number |
| Wire.EncodeDecode | lab_8/zadanie_1/serwer.c:58 | `htonl` undoes `ntohl` on every four bytes |
| Wire.PacketFields | lab_8/zadanie_1/client.c:25-51 | A datagram read back gives its number and its flag |
| Wire.PacketText | lab_8/zadanie_1/serwer.c:55-72 | What is printed of a terminated datagram is its piece up to the first NUL, whatever the padding |
| Wire.Chunks | lab_8/zadanie_1/client.c:25-52 | A file of any length is cut into full chunks and one shorter last chunk, size / 568 + 1 in all, which join to the file |
| Wire.TextRoundTrip | lab_8/zadanie_1/serwer.c:55-72 | The printed strings join to the file if and only if it has no NUL |
| TransferServer.SlotOf | lab_8/zadanie_1/serwer.c:18-27 | The first slot an address holds, or -1 exactly when it holds none |
| TransferServer.LastFree | lab_8/zadanie_1/serwer.c:18-21 | The last free slot, or -1 exactly when none is free |
| TransferServer.RoomIffFree | lab_8/zadanie_1/serwer.c:29-34 | With distinct addresses, the map of sessions is at its limit exactly when no slot is free |
| TransferServer.FoundInTable | lab_8/zadanie_1/serwer.c:15-36 | `findIndex` on the map: a known address keeps its entry, a newcomer gets one with 0 if there is room, else -1; addresses stay distinct |
| TransferServer.SlotsRefineTable | lab_8/zadanie_1/serwer.c:56-82 | One turn of the loop on the slots is one turn on a partial map from addresses to chunk numbers |
| TransferServer.TableFits | lab_8/zadanie_1/serwer.c:15-36 | The map never has more entries than slots |
| TransferServer.PrintsAndEchoes | lab_8/zadanie_1/serwer.c:56-82 | A chunk is printed exactly when it is the next of a session that has or can get a slot, and echoed exactly when it is that one or an earlier one |
| TransferServer.OthersUntouched | sop-site/content/sop2/lab/l7/l7-2_server.c:75-102 | A datagram from one address changes nobody else's session |
| TransferServer.TransferServer.FindIndex | sop-site/content/sop2/lab/l7/l7-2_server.c:42-63 | The scan with its early exit, in place, finds the first slot held, or claims the last free one |
| TransferServer.TransferServer.Fill | lab_8/zadanie_1/serwer.c:51-55 | The buffer holds the datagram, a NUL and its old bytes |
| TransferServer.TransferServer.PrintChunk | lab_8/zadanie_1/serwer.c:62-73 | The next chunk of a session is printed with its flag and text and moves the slot on, a last one frees it; an earlier one changes nothing |
| TransferServer.TransferServer.ServeOne | lab_8/zadanie_1/serwer.c:47-83 | The loop body, in place, is the specified turn: table, buffer, print and echo |
| TransferClient.StepsFollowAttempts | lab_8/zadanie_1/client.c:50-85 | The step-by-step client stays at a chunk until the first acknowledged attempt or the sixth, then moves on, finishes or gives up |
| TransferClient.TransmissionBounds | lab_8/zadanie_1/client.c:25-87 | At most six sends a chunk, and at least one for each if it finishes |
| TransferClient.SendsAreBounded | lab_8/zadanie_1/client.c:25-87 | Whatever the replies and the sizes of the reads, the client with single reads sends at most 6 * (size / 568 + 1) datagrams |
| TransferClient.BulkSendsAreBounded | sop-site/content/sop2/lab/l7/l7-2_client.c:46-66 | Whatever the replies, so does the client with bulk reads |
| TransferClient.SilenceGivesUp | lab_8/zadanie_1/client.c:50-85 | Without replies the first packet goes out six times and the client gives up |
| TransferClient.SixthAttemptDecides | lab_8/zadanie_1/client.c:50-85 | After five attempts in vain there is a sixth: acknowledged, the client goes on to the next chunk or finishes, and otherwise gives up |
| TransferClient.SingleReadsSuffice | lab_8/zadanie_1/client.c:32-49 | The single-read client transmits the whole file if and only if no read is short before the end |
| TransferClient.InputFile.BulkRead | sop-site/content/sop2/lab/l7/l7_common.h:146-162 | For every pattern of short reads, all that is asked for or all that is left, in order |
| TransferClient.Retransmit | sop-site/content/sop2/lab/l7/l7-2_client.c:57-65 | The retransmission loop stops at the first acknowledged attempt or the sixth, has sent the packet that often, and says whether it was acknowledged |
| TransferClient.SendAndWait | lab_8/zadanie_1/client.c:50-85 | A packet is sent as often as the replies make it, and acknowledged if they acknowledge it |
| TransferClient.ClientWork | lab_8/zadanie_1/client.c:25-87 | Sends exactly the datagrams for the pieces its reads bring, each as often as the replies make it |
| TransferClient.DoClient | sop-site/content/sop2/lab/l7/l7-2_client.c:37-67 | For every pattern of short reads sends exactly the datagrams for the chunks of the file |
| Transfer.SessionsPrintPrefixes | lab_8/zadanie_1/serwer.c:47-83 | Under loss, repetition, reordering and strangers: a session, open or closed, has printed exactly the first chunks of its client's file in order; an open one as many as its slot says and not all; any sender's chunk numbers go up from 1; at most five sessions are open |
| Transfer.FinishedMeansPrinted | lab_8/zadanie_1/client.c:50-85 | A client that finishes without giving up has had its whole file printed by one session |
| Transfer.FinishedTextIsFile | lab_8/zadanie_1/serwer.c:60-72 | That session has printed the parts of the whole file, and their text is the file if and only if it has no NUL |
| Transfer.ServerKeepsUp | lab_8/zadanie_1/serwer.c:60-74 | During a client's first session the server is at the client's chunk or the one before |
| Transfer.ClientSendsAreBounded | lab_8/zadanie_1/client.c:50-85 | In every run of the whole system a client sends at most six datagrams a piece |
| Transfer.EchoesAreEarned | lab_8/zadanie_1/client.c:76-85 | In every run, a datagram on its way to a client that the client would take for the acknowledgement of a chunk means that a session has printed this chunk |
| Redelivery.CatchUp | lab_8/zadanie_1/serwer.c:56-82 | For a client with a slot or room for one, whatever it has sent so far can be brought to be echoed, by serving what its session lacks, in exactly that many steps; the last packet ends the session with the whole file printed and leaves room, also for a slot left at 0 |
| Redelivery.DeliveryStaysPossible | lab_8/zadanie_1/client.c:25-87 | From every reachable state, a client that has neither finished nor given up, sending or listening, with a slot or room for one, can finish with its whole file printed, in three steps for each packet left and one for each packet its session lacks |
| Redelivery.PrintedAnyNumberOfTimes | lab_8/zadanie_1/serwer.c:60-74 | Delivery exactly once fails for every file: for every number there is a run in which at least that many sessions print all of it |
| Redelivery.SessionsBegun | lab_8/zadanie_1/serwer.c:56-74 | Between any two states of a run, as many sessions of a client begin to print as its packet 1 is served while its slot is at 0, or it has none and there is room |
| Redelivery.LaterSessionPrintsIff | lab_8/zadanie_1/serwer.c:56-74 | After any state a further session of a client prints something if and only if packet 1 is served in that situation |
| Redelivery.WholePrints | lab_8/zadanie_1/serwer.c:60-74 | Between any two states of a run a file is printed whole exactly as often as its last packet is served while its session, or an admitted newcomer's, lacks only that one |
| Redelivery.WholeAtMostBegun | lab_8/zadanie_1/serwer.c:60-74 | A file is printed whole at most as often as packet 1 has been served in that situation |
| Redelivery.LatePacket | lab_8/zadanie_1/serwer.c:56-82 | While a client has no session and there is room, packet k is printed if and only if k is 1, echoed if and only if k is 1 and the echo can be sent, and takes a slot exactly if it is a later one, or the first of several and the echo can be sent |
| Redelivery.SlotIsLeaked | lab_8/zadanie_1/serwer.c:60-82 | That slots are always freed fails for every file of two or more packets: there is a run in which all of it has been printed, a slot is held at 0 and the client has given up |
| Redelivery.OnePacketHoldsNoSlot | lab_8/zadanie_1/serwer.c:60-68 | The client of a file of one packet holds no slot in any state of any run, so slots can be left behind exactly for longer files |
| Redelivery.SlotFreedIff | lab_8/zadanie_1/serwer.c:60-82 | In every run, a step frees the slot of a client if and only if it serves the last packet as the next one, or a packet that would be echoed but meets EPIPE |
| Redelivery.SlotStaysAtZero | lab_8/zadanie_1/serwer.c:56-60 | A slot at 0 stays taken and at 0 as long as packet 1 is not served |
| Students.CountersCountStudents | sop-site/content/sop1/lab/l3/prog20.c:99-128 | In every state, under every pattern of cancellations, each year's counter is the number of students in that year, also while critical sections are open |
| Students.FinalCounts | sop-site/content/sop1/lab/l3/prog20.c:78-85 | After all joins the first three counters are 0, engineers plus cancelled are all students, and everybody not kicked is an engineer |
| Students.EveryHitCancels | sop-site/content/sop1/lab/l3/prog20.c:99-112 | In every run as many students are cancelled as sleeps have ended with a cancellation |
| Students.HitEndsStudies | sop-site/content/sop1/lab/l3/prog20.c:99-112 | A student whose sleep ends with a cancellation never gets beyond that year and, once done, is counted in no year |
| Students.EachYearIsSleptOnce | sop-site/content/sop1/lab/l3/prog20.c:99-112 | A student has slept exactly once in each year it has left or is leaving, so an engineer three times |
| Students.NoDeadlock | sop-site/content/sop1/lab/l3/prog20.c:114-128 | When no student can act, all are done |
| Students.RunsAreBounded | sop-site/content/sop1/lab/l3/prog20.c:99-153 | A run of n students has at most 32 n + 1 steps |
| Students.MaximalRunsFinish | sop-site/content/sop1/lab/l3/prog20.c:65-85 | A run that cannot go on has everybody done, the first three counters at 0, and as engineers all students but as many as sleeps were ended by a cancellation |
| Students.School.Perform | sop-site/content/sop1/lab/l3/prog20.c:99-128 | A student's next action, in place, is the step of the state machine |
| Students.School.KickStudent | sop-site/content/sop1/lab/l3/prog20.c:141-153 | The loop kicks the first student drawn that has not been kicked, or nobody if none is left |
| Routing.SafetyInEveryRun | zadania_5/zadanie_ziemniak/ziemniak.c:126-157 | path_len + ttl is 20; a path is a walk from where the message was put in and has not met the target before; a reported path is a route; every message put in is on its way, reported or counted as lost |
| Routing.HopsAreBounded | zadania_5/zadanie_ziemniak/ziemniak.c:131-149 | Between any two states of a run, the hops made plus all time to live still on its way are at most the time to live that was on its way, and twenty for each message put in since |
| Routing.HopsOfRun | zadania_5/zadanie_ziemniak/ziemniak.c:131-149 | A whole run makes at most twenty hops for each message put in, less the time to live still on its way |
| Routing.EveryFateIsCounted | zadania_5/zadanie_ziemniak/ziemniak.c:134-154 | In every run, a message is reported exactly when its target reads it, and lost exactly when another node reads it at the end of its time to live, or has no neighbour, or draws itself |
| Routing.PipesAreQueues | zadania_5/zadanie_ziemniak/ziemniak.c:126-149 | Every node reads its messages in the order in which they were written to its pipe, each once |
| Routing.ReportableIffRoute | zadania_5/zadanie_ziemniak/ziemniak.c:126-157 | In some run a path is reported for a start and a target if and only if it is a walk of at most twenty nodes between different nodes that meets the target once, at its end |
| Routing.Neighbours | zadania_5/zadanie_ziemniak/ziemniak.c:141-150 | The columns with a 1, all of them, in order |
| Routing.CountNeighbours | zadania_5/zadanie_ziemniak/ziemniak.c:74-81 | The count made while the matrix is read is the number of neighbours |
| Routing.PickNeighbour | zadania_5/zadanie_ziemniak/ziemniak.c:139-152 | The counting loop finds the neighbour that was drawn |
| Routing.MessageNetwork.Handle | zadania_5/zadanie_ziemniak/ziemniak.c:126-157 | A node's handling of one message, in place, is the step of the state machine |
| Routing.MessageNetwork.Inject | zadania_5/zadanie_ziemniak/ziemniak.c:183-192 | The parent's new message, in place, is the step of the state machine |

## Left out

- Sockets, files, shared mappings, `fork`, signals, timers, printing and argument parsing: only the messages, shared words and wait sets they carry are modelled. Errors that end the whole program (`ERR`, any failure of `sendto` but EPIPE) are not.
- Scheduling and fairness: nothing is said about a thread that is never scheduled. Boundedness and the shape of maximal runs are proved instead.
- Memory orderings weaker than sequential consistency, and the programs that are racy on purpose (`peterson_naive.c`, `store_buffer_test.c`, `race.c`, `shm_tug.c`, `fsipc.c`).
- 32-bit overflow of counters: loop counters, balances, the futex counter and the server's `chunkNo` are unbounded. The chunk numbers on the wire are 32-bit, and files have fewer than 2^31 chunks.
- Futex.RunsAreBounded: the number of spurious wake-ups is not bounded, so it stands in the bound.
- ReadersWriters: the threads repeat for ever, so there is no bound on runs and no last state.
- Shop: a worker that dies with a mutex (robust mutexes), and the manager's verdict that the shelves are sorted. The manager reads the shelves without their mutexes, so in the state machine the verdict is any Boolean; `LooksSorted` is its scan while nobody changes the shelves.
- Shop.WorkersTakeBoundedSteps: the manager's own rounds are counted but not bounded, because it looks again every half second.
- Headquarters: shutting down by SIGINT, the text format of reports (a report is either well formed or not), the limit of 128 characters on names, and in `zadanie1.c` the Napoleon thread and the tables of sides and last senders, which it keeps under the name mutex and which touch neither map nor registry. The stack appears in the state machine only; the class is the ring of `zadanie1_buforcykliczny.c`. The line there that names `cond_stosu` does not compile and is ignored.
- Headquarters.Staff.Draw: is about one worker alone; what other workers do in between is covered by the state machine.
- Transfer: nobody forges a client's address, each client address has one run with one file, and datagrams reach a client only from the server. A run that reads its file only in part is covered by its pieces, which are any sequence `ClientWork` can send.
- TransferServer: the course version `l7-2_server.c` has no room for a terminator behind its buffer; only the table and the acceptance of chunks are meant to cover it, and the printed text is that of `serwer.c`. A short datagram leaves old bytes in the buffer, as in the source; before the first datagram the buffer holds any bytes.
- TransferClient.InputFile.Read: read errors are not modelled, and a read at the end of the file returns nothing for ever.
- Students: real time. The main thread kicks as often as it likes and stops at any moment. A cancellation may also be acted upon only at a later sleep, which allows more runs than the program has.
- Students.School.KickStudent: the loop over `rand` is followed for any finite sequence of drawn numbers; that it ends in the end is a matter of chance.
- Routing: the parent reading reports, full pipes, shutting down, and node names. A message written to a closed pipe is counted as lost.
- Other programs of the course (calculators, Monte Carlo, hash chains, directory scanners, sensors and aggregators) and its texts.
