# Demiplane: a verified model of its concurrent and text-processing core

This project models the parts of Demiplane whose correctness is hardest to see from the code, and
proves what they are for:

* the **disruptor and the logger** on top of it (`Disruptor`, `DisruptorRuns`,
  `DisruptorProgress` for producers that wait and `DisruptorShutdown`): any number of producers, one
  consumer, any number of sinks;
* three pieces of the **lock-free queue**: its free list (`FreeList`, `FreeListCalls`), the counters
  by which dequeuers share out indices (`Overcommit`, `OvercommitCalls`, with `Circular` and `WordCounters` for the same protocol on machine
  words), and an explicit producer's blocks and block index (`ExplicitQueue`, `ExplicitQueueRuns`,
  `ExplicitQueueCalls`, arithmetic in `BlockMath`);
* the **thread pool** (`ThreadPool`, `ThreadPoolRuns`, `ThreadPoolCalls`);
* the **sliding window sorter** (`SlidingWindowSorter`, order and counting in `SortOrder`);
* the **CSV reader and writer** (`Csv`, with `CsvOptions` for the reader's options);
* **outcomes** and the widening of their error lists (`Outcomes`);
* **terminal layout**: visible width, padding, tables and boxes (`Layout`, `TableLayout`,
  `LayoutContent`, `Rendering`);
* **decimal printing** (`Decimal`).

## How the model is built

Code that several threads execute is a transition system. A step is one atomic operation of one thread,
every thread has a program counter, their number is arbitrary, and memory is sequentially consistent. A
run is any sequence of steps from a start state; theorems about runs hold in every state of every run.
The `StartsRun` lemmas show that there are start states for all numbers of threads and all sizes;
`Paths` holds what is true of the runs of any transition system. History variables (what was claimed,
enqueued, published, executed) are not read by a step, with one exception: the block that an enqueuer
acquires in `ExplicitQueue` is one that is not in its ring, and the ring is written down by the history
of blocks. That guard is what the block pool promises. Indices are unbounded; `Circular`,
`WordCounters` and `BlockMath` relate them to wrapped words and bit masks, and the reference words of
the free list wrap at 32 bits as they do in the code.

What every run keeps is half of what such code promises; the other half is that its calls do
something. The modules named `...Calls` say what one call does that is left alone while the other
threads have stopped anywhere, that no call is blocked, and what a call that comes back empty-handed
has seen; the progress and shutdown lemmas say how a run can go on.

Sequential code keeps its form. The sorter and the CSV document are classes whose methods update their
fields; the loops of the reader, the writer, the layout and the printer are loops, each proved equal to
a function about which the properties are then proved. Outcomes are pure functions.

Where a promise turned out not to hold in general, the exact condition is proved:

* a pool drains its queue before shutdown returns in every run **if and only if** its minimum and maximum
  number of threads are equal (`ThreadPoolRuns.DrainsExactly`); otherwise all workers can be on their way
  out, still listed as valid, when a task comes in;
* a CSV table comes back unchanged **if and only if** its rows have cells and each cell passes a test on
  its own characters (`Csv.RoundTrip`); the rule that the writer's quoting suggests is enough, but not
  needed (`Csv.WritableComesBack`); without its last line break it comes back **if and only if**, besides,
  its last row is not one empty cell (`CsvOptions.OpenRoundTrip`);
* widths add up over concatenation **if and only if** the first text is closed (`Layout.AddsExactly`);
* widening an outcome keeps it **if and only if** it does not hold a `std::monostate` as an error
  (`Outcomes.WidenKeeps`), which the code takes for a value to be default-constructed; so chains of
  `and_then` can be regrouped under an exact condition, and always if no callable lists a monostate
  (`Outcomes.AndThenAssociative`, `Outcomes.WithoutMonostate`); `chain_outcomes` throws **if and only if**
  the first error is a monostate (`Outcomes.ChainIsEarlyReturn`);
* a line of a cell is shown in a table **if and only if** its column is among those of the headers, or of
  the cells if there are no headers, and its row among those of the first column
  (`TableLayout.CellShown`);
* the word comparison of the queue is right **if and only if** the indices are within half a word
  (`Circular.CircularOrder`).

Where the code and its own comments differ, the model follows the code:

* `common/multithread/thread_pool/enqueued_task.hpp:25` says that lower values come first; the queue
  takes the highest;
* `common/multithread/thread_pool/source/thread_pool.cpp:42-45` speaks of the threads other than this
  one; the test counts all of the list, including workers that are on their way out;
* `common/3rdparty/csv_parser/csv.hpp:1456` says "at least half"; the test is `cr > lf / 2`, so one CR in
  two line breaks is not enough.

## Model

| member | source | states |
|---|---|---|
| Bits.MaskIsMod | common/multithread/disruptor/ring_buffer/dynamic_ring_buffer.hpp:80-89 | for a size with a single bit set, masking a sequence with size - 1 is the remainder by the size |
| Bits.SlotsDistinct | common/multithread/disruptor/ring_buffer/dynamic_ring_buffer.hpp:80-89 | sequences less than one lap apart are in different slots |
| Disruptor.FlagSet | common/multithread/disruptor/multi_producer_sequencer/dynamic_multi_producer_sequencer.hpp:297-305 | publishing one sequence keeps the meaning of every flag of the window |
| Disruptor.FlagClear | common/multithread/disruptor/multi_producer_sequencer/dynamic_multi_producer_sequencer.hpp:396-399 | clearing one flag moves the mark of what is consumed by exactly one |
| Disruptor.FlagWindow | common/multithread/disruptor/multi_producer_sequencer/dynamic_multi_producer_sequencer.hpp:408-410 | the window may move up because every flag that it leaves behind has been cleared |
| Disruptor.RingCas | common/multithread/disruptor/multi_producer_sequencer/dynamic_multi_producer_sequencer.hpp:141-273 | a claim that passed the test on a stale gating value stays within one lap |
| Disruptor.ClaimsCas | common/multithread/disruptor/multi_producer_sequencer/dynamic_multi_producer_sequencer.hpp:239-273 | a new claim is disjoint from all others, and the others keep theirs |
| Disruptor.RingWrite | common/scroll/logger/include/logger.hpp:111-155 | writing a claimed slot touches no published event that is still to be moved out |
| Disruptor.ClaimsWrite | common/scroll/logger/include/logger.hpp:193-207 | nor anything that another producer has written and not yet published |
| Disruptor.RingPublish | common/multithread/disruptor/multi_producer_sequencer/dynamic_multi_producer_sequencer.hpp:297-327 | what is published, in whatever order, is completely in its slot |
| Disruptor.RingScan | common/multithread/disruptor/multi_producer_sequencer/dynamic_multi_producer_sequencer.hpp:355-368 | the scan, flag by flag while producers publish, only passes published sequences |
| Disruptor.RingTake | common/scroll/logger/source/logger.cpp:66-76 | moving an event out leaves the other unconsumed events alone |
| Disruptor.RingGate | common/scroll/logger/source/logger.cpp:82-83 | the gating sequence strictly grows and everything below it is consumed |
| Disruptor.TextGate | common/scroll/logger/source/logger.cpp:62-83 | the batch is exactly the messages between the old and the new position |
| Disruptor.TextPost | common/scroll/logger/source/logger.cpp:86-90 | each strand gets the batch once, after what it has already |
| Disruptor.StepInv | common/scroll/logger/source/logger.cpp:7-92 | every step of every producer and of the consumer keeps the whole invariant |
| Disruptor.RunInv | common/scroll/logger/source/logger.cpp:7-92 | so every state of every run has it |
| DisruptorRuns.NoOverwrite | common/multithread/disruptor/multi_producer_sequencer/dynamic_multi_producer_sequencer.hpp:141-273 | gating <= cursor <= gating + size in every run; the claims held at one time are disjoint; two unconsumed claimed sequences never share a slot |
| DisruptorRuns.ClaimedOnce | common/multithread/disruptor/multi_producer_sequencer/dynamic_multi_producer_sequencer.hpp:141-273 | two claims of one sequence, wherever in a run and by whichever producers, are the same claim |
| DisruptorRuns.GatingMonotone | common/multithread/disruptor/multi_producer_sequencer/dynamic_multi_producer_sequencer.hpp:408-410 | the gating sequence never moves back, and the log only grows |
| DisruptorRuns.FlagsMeanPublished | common/multithread/disruptor/multi_producer_sequencer/dynamic_multi_producer_sequencer.hpp:297-399 | a flag is set exactly when the one sequence of the window that maps to it is published and not yet marked; the consumer is given a prefix without gaps |
| DisruptorRuns.EndToEndDelivery | common/scroll/logger/source/logger.cpp:7-92 | when the consumer has exited each strand has received, in claim order and once each, exactly the messages below the first shutdown signal, and the final flush comes after them |
| DisruptorRuns.DeliveredIsPrefix | common/scroll/logger/source/logger.cpp:48-92 | at any time each strand has received a prefix of the messages |
| DisruptorRuns.RefinesFifo | common/scroll/logger/source/logger.cpp:48-92 | every step is a step of one unbounded log read by each sink from where it is, or invisible |
| DisruptorRuns.ConsumerMakesProgress | common/scroll/logger/source/logger.cpp:50-83 | from any reached state with the sequences up to some goal published, whatever comes after it, a full iteration moves the gating sequence at least to the goal and at most to the cursor it read, or to a shutdown signal |
| DisruptorRuns.ScanIsExact | common/multithread/disruptor/multi_producer_sequencer/dynamic_multi_producer_sequencer.hpp:355-368 | in every run the scan ends exactly before the first sequence that is not published, whose flag it saw clear, or at the cursor that was read |
| DisruptorRuns.IterationInRun | common/scroll/logger/source/logger.cpp:50-83 | the same with producers stepping in between: the iteration does not end before that |
| DisruptorRuns.ConsumerEnabled | common/scroll/logger/source/logger.cpp:48-92 | the consumer is never blocked inside an iteration |
| DisruptorProgress.RunSteady | common/multithread/disruptor/multi_producer_sequencer/dynamic_multi_producer_sequencer.hpp:141-327 | in every run, what is claimed and not published is still held by some producer, and the cursor value a producer works with is not ahead of the cursor |
| DisruptorProgress.WaitingEnds | common/multithread/disruptor/multi_producer_sequencer/dynamic_multi_producer_sequencer.hpp:141-273 | no stuck full buffer: every run in which a producer waits for room for no more than the buffer holds, with no shutdown signal logged, can go on until it passes the backpressure test |
| DisruptorProgress.ClaimSucceeds | common/multithread/disruptor/multi_producer_sequencer/dynamic_multi_producer_sequencer.hpp:239-273 | and, unless it tries only once, until its claim has been made, with no claim in between |
| DisruptorProgress.ClaimFits | common/multithread/disruptor/multi_producer_sequencer/dynamic_multi_producer_sequencer.hpp:239-270 | in no run is a claim made that is larger than the buffer |
| DisruptorProgress.TestIsExact | common/multithread/disruptor/multi_producer_sequencer/dynamic_multi_producer_sequencer.hpp:141-270 | in every run the backpressure test passes if and only if no sequence of the claim would take the slot of an earlier one that has not been freed |
| DisruptorProgress.RoomIsTaken | common/multithread/disruptor/multi_producer_sequencer/dynamic_multi_producer_sequencer.hpp:141-273 | where there is room a claim of any kind, try_next included, can be made by the producer's own next three steps |
| DisruptorProgress.OnlyTryNextGivesUp | common/multithread/disruptor/multi_producer_sequencer/dynamic_multi_producer_sequencer.hpp:141-273 | any other claim goes on until all that it is for has been claimed |
| DisruptorShutdown.ShutdownFlushes | common/scroll/logger/source/logger.cpp:7-46 | when a caller comes back from shutdown the consumer has exited, and every strand has the messages below the first signal, once and in claim order, and a flush after its last batch |
| DisruptorShutdown.ShutdownReturns | common/scroll/logger/source/logger.cpp:7-46 | every run in which shutdown has claimed its signal can go on until shutdown returns, whatever else has been claimed |
| FreeList.AddMarkInv | common/3rdparty/concurrent_queue/concurrent_queue.hpp:1602-1613 | setting the bit either finds the node unreferenced or leaves the linking to the last reader |
| FreeList.LinkRefsInv | common/3rdparty/concurrent_queue/concurrent_queue.hpp:1662-1674 | only one thread at a time prepares a node, and readers that arrive meanwhile are counted |
| FreeList.LinkCasInv | common/3rdparty/concurrent_queue/concurrent_queue.hpp:1675-1676 | a successful swing of the head puts the node on the list, once |
| FreeList.LinkReleaseInv | common/3rdparty/concurrent_queue/concurrent_queue.hpp:1677-1680 | after a failed swing the linking falls to exactly one thread |
| FreeList.GetBumpInv | common/3rdparty/concurrent_queue/concurrent_queue.hpp:1619-1627 | a reference is only taken on a node that had one |
| FreeList.GetNextInv | common/3rdparty/concurrent_queue/concurrent_queue.hpp:1629-1631 | the next pointer read stays that node's while the reference is held |
| FreeList.GetCasInv | common/3rdparty/concurrent_queue/concurrent_queue.hpp:1632-1637 | the swing removes the front node, whose bit is clear, although it may have left and come back since it was read |
| FreeList.GetTakeInv | common/3rdparty/concurrent_queue/concurrent_queue.hpp:1639-1642 | the caller becomes the only owner |
| FreeList.LastReader | common/3rdparty/concurrent_queue/concurrent_queue.hpp:1644-1650 | a reader that finds the bit and its own reference alone is the one to which the linking fell |
| FreeList.GetDropInv | common/3rdparty/concurrent_queue/concurrent_queue.hpp:1644-1650 | giving a reference back keeps every node's account |
| FreeList.StepInv | common/3rdparty/concurrent_queue/concurrent_queue.hpp:1602-1684 | every step of add and try_get keeps the invariant |
| FreeList.RunsAreSafe | common/3rdparty/concurrent_queue/concurrent_queue.hpp:1602-1684 | in every interleaving the list is acyclic with each node on it at most once, its nodes have their bit clear, and no node has two owners |
| FreeList.HeldThroughout | common/3rdparty/concurrent_queue/concurrent_queue.hpp:1602-1684 | a node stays with its owner until the owner adds it |
| FreeList.ReturnedOncePerAdd | common/3rdparty/concurrent_queue/concurrent_queue.hpp:1602-1684 | between two returns of a node somebody has added it |
| FreeList.QuiescentConservation | common/3rdparty/concurrent_queue/concurrent_queue.hpp:1602-1684 | when all calls have returned each node is either owned or on the list, with exactly the list's reference |
| FreeListCalls.LoneGet | common/3rdparty/concurrent_queue/concurrent_queue.hpp:1615-1655 | a try_get that is left alone on a list that is not empty returns the front node, by six steps, wherever the other threads have stopped |
| FreeListCalls.LoneAdd | common/3rdparty/concurrent_queue/concurrent_queue.hpp:1602-1684 | an add that is left alone puts its node at the front, or leaves that to the last reader if there still is one |
| FreeListCalls.RunsAlone | common/3rdparty/concurrent_queue/concurrent_queue.hpp:1602-1684 | and no thread is ever blocked |
| FreeListCalls.EmptyWasSeen | common/3rdparty/concurrent_queue/concurrent_queue.hpp:1615-1655 | in every run a try_get that comes back without a node has read a null head during the call |
| Overcommit.GrantsFit | common/3rdparty/concurrent_queue/concurrent_queue.hpp:2128-2180 | all that was ever granted fits below the tail, however stale the overcommit that was read |
| Overcommit.TakeFits | common/3rdparty/concurrent_queue/concurrent_queue.hpp:2167-2179 | the indices about to be taken are below the tail |
| Overcommit.StepInv | common/3rdparty/concurrent_queue/concurrent_queue.hpp:2452-2554 | every step of single and bulk dequeuers keeps the books |
| Overcommit.HeadNeverPassesTail | common/3rdparty/concurrent_queue/concurrent_queue.hpp:2452-2554 | head <= tail in every run; the claimed ranges are disjoint, and together exactly the indices below the head |
| Overcommit.QuiescentTestIsExact | common/3rdparty/concurrent_queue/concurrent_queue.hpp:2128-2140 | with no dequeue under way the emptiness test is right in both directions |
| OvercommitCalls.LoneDequeue | common/3rdparty/concurrent_queue/concurrent_queue.hpp:2128-2180 | a dequeue for any number of items that is left alone takes exactly the next indices, as many as it asked for or as are available, or says that there are none |
| OvercommitCalls.AvailableIsThere | common/3rdparty/concurrent_queue/concurrent_queue.hpp:2452-2554 | what is available is below the tail, and everything below the tail when no other dequeue is under way |
| OvercommitCalls.RunsAlone | common/3rdparty/concurrent_queue/concurrent_queue.hpp:2128-2180 | a dequeuer is never blocked |
| Circular.CircularOrder | common/3rdparty/concurrent_queue/concurrent_queue.hpp:597-601 | for every word width, the comparison of wrapped indices agrees with the order of the indices exactly within half a word |
| Circular.DequeueTestsAgree | common/3rdparty/concurrent_queue/concurrent_queue.hpp:2128-2168 | with less than half a word between them, the tests and amounts on words are those on unbounded indices |
| WordCounters.StepAgrees | common/3rdparty/concurrent_queue/concurrent_queue.hpp:2128-2180 | each step on words computes the words of what the step on unbounded indices computes, if the values it tests are within half a word |
| WordCounters.WordsSimulate | common/3rdparty/concurrent_queue/concurrent_queue.hpp:2452-2554 | behind every run on words there is a run on unbounded indices with the same actions, and the words are those of its states up to the first test of values half a word or more apart |
| BlockMath.SplitIsDivMod | common/3rdparty/concurrent_queue/concurrent_queue.hpp:2184-2197 | block number and offset are the division and the mask of the code |
| BlockMath.BlockDistance | common/3rdparty/concurrent_queue/concurrent_queue.hpp:2184-2197 | the signed division of base distances counts blocks, also backwards |
| BlockMath.MaskedOffset | common/3rdparty/concurrent_queue/concurrent_queue.hpp:2184-2197 | adding a negative offset to an unsigned word and masking steps back around the table |
| ExplicitQueue.AheadIsEmpty | common/3rdparty/concurrent_queue/concurrent_queue.hpp:1719-1816 | when the flags of the block ahead have all been seen set, one by one, everything in it is completely dequeued |
| ExplicitQueue.ReuseInv | common/3rdparty/concurrent_queue/concurrent_queue.hpp:2023-2037 | reusing that block overwrites nothing live and keeps the invariant |
| ExplicitQueue.GrowInv | common/3rdparty/concurrent_queue/concurrent_queue.hpp:2570-2609 | replacing the index by one twice the size keeps every entry that is needed |
| ExplicitQueue.AcquireInv | common/3rdparty/concurrent_queue/concurrent_queue.hpp:2066-2083 | linking a new block keeps the ring in order |
| ExplicitQueue.PutEntryInv | common/3rdparty/concurrent_queue/concurrent_queue.hpp:2105-2111 | the entry being prepared is none that a dequeuer can be led to |
| ExplicitQueue.ConstructInv | common/3rdparty/concurrent_queue/concurrent_queue.hpp:2120-2124 | constructing at the tail touches no live element |
| ExplicitQueue.EnqueueInv | common/3rdparty/concurrent_queue/concurrent_queue.hpp:2020-2125 | every step of the enqueuing thread keeps the invariant |
| ExplicitQueue.LookupFinds | common/3rdparty/concurrent_queue/concurrent_queue.hpp:2184-2197 | counting from any later front entry by its base leads to the slot of the block number wanted |
| ExplicitQueue.MoveGets | common/3rdparty/concurrent_queue/concurrent_queue.hpp:2199-2219 | a dequeuer moves out the element enqueued at its index |
| ExplicitQueue.SetEmptyInv | common/3rdparty/concurrent_queue/concurrent_queue.hpp:1719-1816 | setting an empty flag marks that element, and no other, as completely dequeued |
| ExplicitQueue.StepInv | common/3rdparty/concurrent_queue/concurrent_queue.hpp:2020-2232 | every step keeps the invariant, together with the counters |
| ExplicitQueueRuns.FifoOrder | common/3rdparty/concurrent_queue/concurrent_queue.hpp:2020-2232 | the dequeuer of index i gets the i-th enqueued element, no index is served twice, and what has not been moved out is still in its cell |
| ExplicitQueueRuns.ReusedBlockIsEmpty | common/3rdparty/concurrent_queue/concurrent_queue.hpp:2023-2037 | a block is only reused when all its elements are completely dequeued |
| ExplicitQueueRuns.LookupAgrees | common/3rdparty/concurrent_queue/concurrent_queue.hpp:2184-2197 | whichever index a dequeuer loaded, and however it has wrapped or grown since, the entry it reads is that of its block |
| ExplicitQueueRuns.NothingLost | common/3rdparty/concurrent_queue/concurrent_queue.hpp:2128-2232 | with no dequeuer at work exactly the indices below the head have been received |
| ExplicitQueueRuns.NewBlockIndex | common/3rdparty/concurrent_queue/concurrent_queue.hpp:2570-2609 | the copy loop ends and leaves the used entries in order, oldest first |
| ExplicitQueueCalls.LoneDequeue | common/3rdparty/concurrent_queue/concurrent_queue.hpp:2128-2232 | a dequeue that is left alone receives the element of the next index, by thirteen steps, wherever the enqueuer and the other dequeuers have stopped |
| ExplicitQueueCalls.SomethingAvailable | common/3rdparty/concurrent_queue/concurrent_queue.hpp:2128-2140 | with no other dequeue under way that is so whenever the queue is not empty |
| ExplicitQueueCalls.RunsAlone | common/3rdparty/concurrent_queue/concurrent_queue.hpp:2128-2232 | a dequeuer is never blocked |
| ExplicitQueueCalls.EnqueueAppends | common/3rdparty/concurrent_queue/concurrent_queue.hpp:2020-2125 | an enqueue that returns has appended its element, once, and before that nothing |
| ExplicitQueueCalls.BlockIsNeeded | common/3rdparty/concurrent_queue/concurrent_queue.hpp:2023-2037 | a block is only asked for when there is none or the one ahead has an element that is not completely dequeued |
| ExplicitQueueCalls.IndexIsNeeded | common/3rdparty/concurrent_queue/concurrent_queue.hpp:2040-2065 | the index is only replaced when all of it is in use, and by one twice the size |
| ExplicitQueueCalls.EnqueueReturns | common/3rdparty/concurrent_queue/concurrent_queue.hpp:2020-2125 | with a block in the pool, or past the need for one, an enqueue returns by its own steps |
| ThreadPool.ReadsInv | common/multithread/thread_pool/include/thread_pool.hpp:113-138 | size and activity, read in either order while the mutex is held, never give a negative difference |
| ThreadPool.CreatesInv | common/multithread/thread_pool/include/thread_pool.hpp:132-134 | a new worker never brings the list above the maximum |
| ThreadPool.ErasesInv | common/multithread/thread_pool/source/thread_pool.cpp:83-96 | a cleanup, by enqueue or by the cleanup thread, drops only workers that have ended |
| ThreadPool.TakesInv | common/multithread/thread_pool/source/thread_pool.cpp:15-30 | a task leaves the queue to exactly one worker |
| ThreadPool.ExecutesInv | common/multithread/thread_pool/source/thread_pool.cpp:56-61 | a task that is executed has not been executed before |
| ThreadPool.StepInv | common/multithread/thread_pool/source/thread_pool.cpp:4-109 | every step of workers, callers, cleanup and shutdown keeps the invariant |
| ThreadPoolRuns.ListBounded | common/multithread/thread_pool/include/thread_pool.hpp:65-75 | in every run the list never exceeds the maximum and free_threads never underflows inside enqueue |
| ThreadPoolRuns.AtMostOnce | common/multithread/thread_pool/source/thread_pool.cpp:56-61 | no task is executed twice, or without having been accepted |
| ThreadPoolRuns.ReturnAccounts | common/multithread/thread_pool/source/thread_pool.cpp:98-109 | when shutdown returns, what has not been executed is still queued, and then every worker had left for want of work |
| ThreadPoolRuns.FixedPoolDrains | common/multithread/thread_pool/source/thread_pool.cpp:98-109 | with equal minimum and maximum every accepted task has been executed exactly once when shutdown returns |
| ThreadPoolRuns.GrowingPoolMayLose | common/multithread/thread_pool/source/thread_pool.cpp:31-50 | for every minimum below the maximum there is a run that returns from shutdown with an accepted task never executed |
| ThreadPoolRuns.DrainsExactly | common/multithread/thread_pool/source/thread_pool.cpp:4-109 | every run drains the queue if and only if minimum and maximum are equal |
| ThreadPoolCalls.PriorityOrder | common/multithread/thread_pool/source/thread_pool.cpp:24-30 | in every run a task leaves the queue only to one worker, and no task queued at that moment has a higher priority |
| ThreadPoolCalls.PrioritiesGrow | common/multithread/thread_pool/include/thread_pool.hpp:122-127 | a task keeps the priority that it was enqueued with |
| ThreadPoolCalls.LoneEnqueue | common/multithread/thread_pool/include/thread_pool.hpp:122-136 | an enqueue that is left alone drops the workers that have ended, unless their number is a multiple of 256, and creates a worker if and only if the list is then not full and as long as there are active workers |
| ThreadPoolCalls.CleanerCleans | common/multithread/thread_pool/source/thread_pool.cpp:66-96 | the cleanup thread can drop by itself every worker that has ended, and no other |
| ThreadPoolCalls.ShutdownCanReturn | common/multithread/thread_pool/source/thread_pool.cpp:98-109 | every run can go on until shutdown has returned |
| SortOrder.MergeSorts | common/algorithms/sliding_window_sorter/sliding_window_sorter.hpp:178-221 | merging sorted sequences under a strict weak order gives a sorted one |
| SortOrder.MergeKeeps | common/algorithms/sliding_window_sorter/sliding_window_sorter.hpp:178-221 | a merge keeps the multiset of its inputs, sorted or not |
| SortOrder.MergeIsStable | common/algorithms/sliding_window_sorter/sliding_window_sorter.hpp:178-221 | it interleaves its inputs in their order, and takes equivalent elements from the first one first |
| SortOrder.StableMergeUnique | common/algorithms/sliding_window_sorter/sliding_window_sorter.hpp:178-221 | and is the only sorted sequence that does |
| SlidingWindowSorter.InsertionSort | common/algorithms/sliding_window_sorter/sliding_window_sorter.hpp:264-272 | the in-place sort is a permutation for any comparator, and sorted for a strict weak order |
| SlidingWindowSorter.AboveBeatsNotBelow | common/algorithms/sliding_window_sorter/sliding_window_sorter.hpp:125-261 | an element that should have come before an emitted one has too many greater ones before it |
| SlidingWindowSorter.Arrive | common/algorithms/sliding_window_sorter/sliding_window_sorter.hpp:77-83 | an arrival within the tolerated disorder belongs after everything emitted |
| SlidingWindowSorter.Emit | common/algorithms/sliding_window_sorter/sliding_window_sorter.hpp:223-254 | what is emitted by the output rule may stay before all that is held |
| SlidingWindowSorter.FlushSorts | common/algorithms/sliding_window_sorter/sliding_window_sorter.hpp:86-90 | up to a flush the output is a permutation of the input, the input itself without sorting, and sorted if the disorder was within window size minus batch size |
| SlidingWindowSorter.Sorter.SortAndMerge | common/algorithms/sliding_window_sorter/sliding_window_sorter.hpp:155-176 | the pending entries join the window, which stays sorted; both counters move as they should |
| SlidingWindowSorter.Sorter.MergeWithWindow | common/algorithms/sliding_window_sorter/sliding_window_sorter.hpp:178-221 | the in-place merge, known by its promise of stability only, and the merge into a new vector give the same window, whatever the vector's capacity; for any comparator nothing is lost |
| SlidingWindowSorter.Sorter.OutputEntries | common/algorithms/sliding_window_sorter/sliding_window_sorter.hpp:235-254 | the first entries go to the consumer in one batch and are counted |
| SlidingWindowSorter.Sorter.MaintainWindowSize | common/algorithms/sliding_window_sorter/sliding_window_sorter.hpp:256-261 | erases only the excess over the window size |
| SlidingWindowSorter.Sorter.Release | common/algorithms/sliding_window_sorter/sliding_window_sorter.hpp:223-261 | after the output rule, for all sizes including 0, there is no excess left to erase: nothing is lost |
| SlidingWindowSorter.Sorter.ProcessBatch | common/algorithms/sliding_window_sorter/sliding_window_sorter.hpp:125-153 | what is held is handed over or kept; the account of inputs, outputs and held entries balances and the total is the number emitted |
| SlidingWindowSorter.OutputHandsOver | common/algorithms/sliding_window_sorter/sliding_window_sorter.hpp:223-233 | the output rule is the only one by which nothing leaves a window that is not full, a full one gives at least a batch or all it has, what stays fits, and no more leaves than that asks for |
| SlidingWindowSorter.Sorter.AddEntry | common/algorithms/sliding_window_sorter/sliding_window_sorter.hpp:77-83 | nothing is emitted below the batch size; otherwise one batch is processed and as many entries leave as that rule says; the invariant is kept |
| SlidingWindowSorter.Sorter.AddEntries | common/algorithms/sliding_window_sorter/sliding_window_sorter.hpp:62-74 | the same for a list, of which an empty one does nothing |
| SlidingWindowSorter.Sorter.Flush | common/algorithms/sliding_window_sorter/sliding_window_sorter.hpp:86-90 | all batches since the last flush concatenate to a permutation of the inputs since then, in input order without sorting, sorted under bounded disorder |
| SlidingWindowSorter.Sorter.Reconfigure | common/algorithms/sliding_window_sorter/sliding_window_sorter.hpp:110-118 | everything held goes out under the old configuration before the new one holds |
| Csv.ReplaceString | common/3rdparty/csv_parser/csv.hpp:1619-1626 | the editing loop replaces every leftmost, non-overlapping occurrence, and ends |
| Csv.UnescapedEscaped | common/3rdparty/csv_parser/csv.hpp:1565-1578 | halving pairs of quotes undoes doubling them, for every text |
| Csv.RunPrefix | common/3rdparty/csv_parser/csv.hpp:1383-1400 | inside an unquoted cell the quoted state is the parity of quotes in a cell that begins with one |
| Csv.SurvivorReads | common/3rdparty/csv_parser/csv.hpp:1383-1430 | a surviving cell's text reads as that cell wherever it begins |
| Csv.CellIsNot | common/3rdparty/csv_parser/csv.hpp:1383-1430 | an unquoted cell that does not survive is not what is stored in its place, whatever follows |
| Csv.RunNoBreaks | common/3rdparty/csv_parser/csv.hpp:1402-1430 | without quoted line breaks no stored cell ever holds a CR or LF |
| Csv.TableComesBack | common/3rdparty/csv_parser/csv.hpp:1502-1524 | a table of surviving cells is read back, with the CRs and LFs of its lines counted |
| Csv.TableIsLost | common/3rdparty/csv_parser/csv.hpp:1363-1464 | a table with a lost cell or an empty row is not |
| Csv.RoundTrip | common/3rdparty/csv_parser/csv.hpp:1363-1524 | writing and reading gives the same table and the same mHasCR if and only if every row has cells, every cell survives, and a document without rows does not ask for CRs |
| Csv.WritableComesBack | common/3rdparty/csv_parser/csv.hpp:1363-1524 | in particular for every table of writable cells |
| Csv.Document.UnquoteCell | common/3rdparty/csv_parser/csv.hpp:1565-1578 | Unquote, with the string it edits |
| Csv.Document.ReadChar | common/3rdparty/csv_parser/csv.hpp:1383-1433 | the effect of one character, branch by branch, is one step of the machine |
| Csv.Document.ParseCsv | common/3rdparty/csv_parser/csv.hpp:1363-1464 | reading by buffers of 64 KiB is one pass over the readable text, and sets the data and mHasCR |
| Csv.Document.WriteCsv | common/3rdparty/csv_parser/csv.hpp:1502-1524 | the nested loops print exactly the table's text |
| CsvOptions.LastBreakIsOptional | common/3rdparty/csv_parser/csv.hpp:1436-1455 | a text that ends inside a row reads as with a line break at its end, for all options |
| CsvOptions.LastBreakExactly | common/3rdparty/csv_parser/csv.hpp:1402-1455 | when nothing is trimmed or a comment, a last line break makes no difference if and only if no quotation is open that may hold it and there is a row to end or empty lines are skipped |
| CsvOptions.OpenRoundTrip | common/3rdparty/csv_parser/csv.hpp:1436-1524 | a surviving table written without its last line break is read back if and only if its last row is not one empty cell |
| CsvOptions.CommentsAreDropped | common/3rdparty/csv_parser/csv.hpp:1416-1424 | skipping comment lines is reading them and dropping the rows whose first cell begins with the prefix |
| CsvOptions.EmptyLinesAreDropped | common/3rdparty/csv_parser/csv.hpp:1411-1415 | skipping empty lines is, in a text without quotes, dropping the rows of one empty cell |
| CsvOptions.TrimIs | common/3rdparty/csv_parser/csv.hpp:1548-1563 | trimming takes away the white space at both ends, all of it, and nothing else |
| CsvOptions.CellsAreTrimmed | common/3rdparty/csv_parser/csv.hpp:1383-1455 | reading with trimming is, in a text without quotes, reading without it and trimming every cell |
| CsvOptions.SpacedQuoteReads | common/3rdparty/csv_parser/csv.hpp:1383-1400 | with trimming, white space around a quoted cell is not part of it, and what is in the quotes is read as it was written |
| CsvOptions.MixedBreaks | common/3rdparty/csv_parser/csv.hpp:1402-1457 | a table with line breaks of both kinds is read, and mHasCR is set if and only if more than half of them have a CR |
| Outcomes.AllUniqueIsDistinct | common/gears/meta_programming/gears_templates.hpp:161-170 | the recursive test holds exactly when no two types are equal |
| Outcomes.MergeIsUnion | common/gears/meta_programming/gears_templates.hpp:180-209 | a merge has no duplicates, begins with the first list and holds exactly the union |
| Outcomes.MergeKeepsOrder | common/gears/meta_programming/gears_templates.hpp:180-209 | in the order of first occurrence |
| Outcomes.MergeAssociative | common/gears/meta_programming/gears_templates.hpp:180-209 | and in any grouping the same |
| Outcomes.WidenKeeps | common/gears/outcome/gears_outcome.hpp:112-128 | widening keeps the value, or the type and payload of the error, if and only if no monostate is held as an error; a monostate becomes the default value |
| Outcomes.MonostateIsLost | common/gears/outcome/gears_outcome.hpp:119-120 | an input at which it does not |
| Outcomes.AndThenKeeps | common/gears/outcome/gears_outcome.hpp:368-450 | and_then passes on the first error, whatever it is; it gives what the callable gave if and only if that is no monostate error or needs no widening |
| Outcomes.AndThenAssociative | common/gears/outcome/gears_outcome.hpp:368-450 | chains nested to the left and to the right have the same error list, and hold the same alternative at the same index exactly under a condition on what the callables return |
| Outcomes.WithoutMonostate | common/gears/outcome/gears_outcome.hpp:368-450 | which holds if no callable lists a monostate as an error |
| Outcomes.NestingsDiffer | common/gears/outcome/gears_outcome.hpp:368-450 | two nestings that compile and give different values |
| Outcomes.ChainIsEarlyReturn | common/gears/outcome/gears_outcome.hpp:876-905 | chain_outcomes is left-to-right early return with void values dropped, and throws exactly if the first error is a monostate |
| Outcomes.ChainThrows | common/gears/outcome/gears_outcome.hpp:141-147 | an input at which it throws |
| Outcomes.ChainIsAndThen | common/gears/outcome/gears_outcome.hpp:130-161 | it is a chain of and_then, with the same error list, exactly if it does not throw |
| Layout.VisibleWidth | common/ink/base/layout.hpp:22-42 | the index-skipping loop computes the width |
| Layout.WidthIsCodePoints | common/ink/base/layout.hpp:16-42 | the width of UTF-8 text with escape sequences is the number of its code points |
| Layout.WidthAdds | common/ink/base/layout.hpp:22-42 | the width of a closed text adds to that of whatever follows |
| Layout.AddsExactly | common/ink/base/layout.hpp:22-42 | and of no other text |
| Layout.SplitLines | common/ink/base/layout.hpp:45-56 | the loop cuts the text at its line breaks |
| Layout.LinesJoin | common/ink/base/layout.hpp:45-56 | the lines joined again are the text, and hold no line break |
| Layout.JoinLines | common/ink/base/layout.hpp:45-56 | lines joined and cut again are the lines |
| Layout.PadExact | common/ink/base/layout.hpp:91-119 | padding reaches the width exactly, and leaves wider texts alone |
| Layout.PadPlaces | common/ink/base/layout.hpp:91-119 | the text stands at the left, at the right, or between margins that differ by at most one |
| Layout.PadText | common/ink/base/layout.hpp:91-119 | computes that |
| TableLayout.ColorizeWidth | common/ink/base/colors.hpp:75-80 | a style takes no column |
| TableLayout.LineFits | common/ink/rendering/table/table.hpp:47-59 | no line of a cell is wider than its column |
| TableLayout.CellShown | common/ink/rendering/table/table.hpp:37-149 | a line of a cell stands at the position of its column in its line of the table if and only if that column and that row are printed |
| TableLayout.CellsDropped | common/ink/rendering/table/table.hpp:44-45 | a cell of a column without a header, and a cell below the first column's last row, are not shown |
| TableLayout.RowShown | common/ink/rendering/table/table.hpp:131-153 | every line of every printed row is the line of the table at which it belongs |
| TableLayout.TableIsRectangular | common/ink/rendering/table/table.hpp:37-161 | the output cut at its line breaks is the table's lines, all of the same visible width |
| TableLayout.BoxLineFits | common/ink/rendering/box/box.hpp:66-74 | the fill of a line is never negative |
| TableLayout.BoxIsRectangular | common/ink/rendering/box/box.hpp:66-142 | every line of a box has the same visible width, with or without a title or a border style |
| LayoutContent.BoxShown | common/ink/rendering/box/box.hpp:92-142 | the output of a box, cut at its line breaks, is a frame around exactly the lines of the body, each after a bar and the padding and followed by spaces up to the closing bar, with the title between two spaces in the middle of the first line up to one column |
| LayoutContent.BoxIsTight | common/ink/rendering/box/box.hpp:66-74 | a box is as wide as its widest line and the padding, or its title, need |
| LayoutContent.HeaderShown | common/ink/rendering/table/table.hpp:109-128 | every header stands at the left of its column in the line below the top border, in the header style if there is one |
| LayoutContent.CellAligned | common/ink/rendering/table/table.hpp:131-149 | every line of every printed cell fills its column with spaces at the sides that its column's alignment says, or the table's if the column has none, and is blank below its last line |
| LayoutContent.TableFramed | common/ink/rendering/table/table.hpp:82-156 | the borders stand at the top, at the bottom, under the headers and between the rows, with a run over each column and the right glyph at every end and junction |
| LayoutContent.ColumnIsTight | common/ink/rendering/table/table.hpp:47-59 | a column is as wide as the least width asked for or its widest header or line, and nothing in it is wider |
| LayoutContent.RowIsTight | common/ink/rendering/table/table.hpp:61-68 | a row is as high as its highest cell |
| Rendering.ColumnWidths | common/ink/rendering/table/table.hpp:47-59 | the nested loops find the widest header or line of every column, and no less than the minimum |
| Rendering.RenderTable | common/ink/rendering/table/table.hpp:37-161 | the loops produce that text, for every content, ragged columns included |
| Rendering.RenderBox | common/ink/rendering/box/box.hpp:66-142 | and that box, in which every line of the body is shown |
| Decimal.TableDigits | common/gears/utilities/gears_utils.hpp:71-81 | each entry of the table is the two digits of its number |
| Decimal.NotationReads | common/gears/utilities/gears_utils.hpp:66-113 | the notation reads back as the number, without a leading zero |
| Decimal.NotationUnique | common/gears/utilities/gears_utils.hpp:66-113 | and no other string of digits without a leading zero does |
| Decimal.SizeFits | common/gears/utilities/gears_utils.hpp:83-85 | every 64-bit value has at most twenty digits |
| Decimal.ConstexprToString | common/gears/utilities/gears_utils.hpp:66-113 | the two-digit loop stays inside the buffer and prints exactly the notation |

## Left out

- C++ memory orders, cache alignment, pause and yield instructions, and overflow of 64-bit sequences: memory is sequentially consistent and sequences are unbounded.
- Update in place of the shared objects of the concurrent parts: their fields are components of a state, so aliasing between them is not modelled.
- Disruptor: batch claims of a negative size, which the sequencer refuses by contract only, are not modelled; the static sequencer is the same protocol with a fixed size and is covered by the size being a parameter.
- Fairness: waiting is a return to the loop head. Progress is proved for the consumer's own steps, and for a waiting producer as a way to go on from every reached state; that a scheduler takes it is not part of the model.
- Logging after shutdown: the gating sequence no longer moves, and nothing is claimed about it.
- The free list's debug lock, and the block pool that uses the list.
- Overcommit: a bulk dequeue that asks for no items at all.
- ExplicitQueue: single-item enqueue and dequeue only; bulk operations, throwing constructors, allocation failure, the sub-queue size limit, and the counter form of the emptiness test for large blocks are left out, as are implicit producers, tokens and the hash of threads.
- The thread pool's minimum number of workers, which the source itself records as not kept; exceptions thrown by creating a thread; tasks that call back into the pool while it shuts down; a second, concurrent shutdown.
- SlidingWindowSorter.StdSort: std::sort promises nothing about equivalent elements, and neither does the model; statistics other than the three counters are left out.
- Csv: the effect of trimming and of skipping empty lines on rows is proved for texts without quotes, and of trimming on one quoted cell; files, byte order marks, UTF-16, numeric conversion, and the maps of row and column names are left out; the counts of CRs and LFs do not overflow.
- Outcomes: moves, references and in-place construction; or_else, transform and the accessors. Both static assertions of the class are kept, so nestings are compared only where both compile: there are chains, whose value type is an error type of another link, of which the nesting to the left does not compile and the one to the right does.
- Layout: wide and combining characters, which the source counts as one column as well.
- Printing of floating-point numbers.
- The database layer, the dependency container, cryptography, JSON, clocks, random numbers, benchmarks and log macros.
