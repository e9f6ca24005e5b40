# A model of the vPIFO scheduler and its tool chain

vPIFO runs many priority queues on one ring of processing units (RPUs). This project models
the reference scheduler, the programs that prepare its input and the memory layout it is
built for, together with two pieces of the experiment code, and proves what they guarantee.

- **Trees** (`BmwTree`, `BmwDepth`, `Pool`, `PoolBound`, `Forest`, `ForestRuns`). The BMW tree
  as a value with its laws as a priority multiset; the balance counters, which are lower
  bounds only, and the depth they buy; the shared node pool, updated in place, in which every
  tree behaves as if it were alone.
- **Ring** (`Ring`, `RingRuns`, `RingCounts`, `Completion`, `Pipeline`). One cycle as a simultaneous shift
  and a sequence of issues; the invariant by which no task overwrites another; where every
  task is at every time; and the batch pipeline, which always drains and counts each task once.
- **Scheduler** (`Scheduler`, `SchedulerTyped`, `SchedulerSafety`, `Execution`, `CreditUse`,
  `Conservation`, `RootOrder`,
  `DepartsOnce`, `FlowOrder`, `Standstill`, `Machine`). The two-level scheduler as a state machine over
  whole cycles: no Pop meets an empty tree, no packet is lost or sent twice, flows stay in
  order. `Machine` is the same on arrays, queues and the node pool, updated in place.
- **Ranks** (`Wfq`, `FlowRanks`, `Fairness`, `LeafService`). Virtual time and start tags, strict
  priority and pFabric, and the fairness the start tags give, down to the departures.
- **Trace** (`TracePasses`, `TraceText`, `TraceLoad`, `StrategyFifo`, `TraceRom`). The two
  passes over a capture, the text between the programs, the reader and the ROM encoding;
  `TraceLoad` carries the scheduler's results over to every capture, and `StrategyFifo` to
  the ranks of each strategy.
- **Memory layout** (`SramLayout`, `AddressTable`).
- **Experiments** (`TokenBucket`; `TagHeap`, `TagOps`, `TagSteps`, `TagList`; `BufferHeap`,
  `BufferSteps`, `Buffers`). The token bucket of the transmit port, and the copy-on-write
  packet tags and packet buffers of the simulator. Shared nodes and blocks are entries of an
  explicit memory, so that aliasing, reference counts and deletion are part of the model.

Where the code and the wish for it differ, the model follows the code. Each of these has a
concrete counterexample and the exact condition under which the wish holds:

- `num[d]` is not the size of a subtree: a pop that enters an empty son still counts it down
  (`BmwDepth.CounterGoesNegative`, `BmwDepth.DepthBoundNeedsCleanPops`; exact condition in
  `BmwDepth.PopCountersExact`).
- An element whose rank is the sentinel is lost, one above it hides (`BmwTree.SentinelRankIsLost`,
  `BmwTree.RankAboveSentinelHides`; conditions in `BmwTree.PushElems` and `BmwTree.PushHeap`).
- Virtual time does not advance between the last departure and an arrival (`Wfq.ClockStands`;
  condition in `Wfq.Strategy.UpdateVirTimeTo`).
- A negative number loses its sign in the trace (`TraceText.NegativeRankMisread`; condition in
  `TraceText.TraceRoundTrip`).
- A packet longer than the tokens in hand breaks the token bucket
  (`TokenBucket.OversizedPacketEscapes`; condition in `TokenBucket.Conformance`).
- With one bank, or one address per bank, a row of the address table is longer than its
  computed width (`AddressTable.OneBankRowIsLong`; condition in `AddressTable.RowDecodes`).
- A fragment that reaches past the end of a buffer is empty, since the unsigned difference wraps
  (`Buffers.FragmentPastEndIsEmpty`; condition in `Buffers.BufferStore.CreateFragment`).
- A removal at the start whose 32-bit sum wraps makes a buffer longer
  (`Buffers.FragmentMovesBack`; condition in `Buffers.DropIsExact`).
- A credit of a flow other than that of the top packet is never used while nothing else happens, and
  the scheduler waits for good (`Standstill.CreditOfAnotherFlow`; condition in
  `Standstill.IdleCycle`).
- A byte written into shared storage is seen by every buffer that shows it
  (`BufferSteps.SharedWriteIsSeen`; condition in `Buffers.BufferStore.WriteU8`).

## Model

| member | source | states |
|---|---|---|
| `BmwTree.PushElems` | software/SDL_compiler/compiler/vPIFO_trace.cpp:89-111 | a push adds exactly its element to what the tree holds if and only if its rank is not the sentinel `inf`; otherwise it adds nothing |
| `BmwTree.PushHeap` | software/SDL_compiler/compiler/vPIFO_trace.cpp:89-111 | a push keeps every slot no larger than anything under it if and only if its rank does not exceed the sentinel |
| `BmwTree.SentinelRankIsLost` | software/SDL_compiler/compiler/vPIFO_trace.cpp:24-25 | an element of rank `inf` pushed into a fresh tree is not held |
| `BmwTree.RankAboveSentinelHides` | software/SDL_compiler/compiler/vPIFO_trace.cpp:113-118 | an element of rank above `inf` is held and yet the top reads as vacant |
| `BmwTree.TopLeast` | software/SDL_compiler/compiler/vPIFO_trace.cpp:137-144 | the top is vacant exactly for an empty tree, and otherwise a least element in (rank, val) order |
| `BmwTree.PopLeast` | software/SDL_compiler/compiler/vPIFO_trace.cpp:113-125 | a pop removes exactly one least element and keeps the heap; on an empty tree it removes nothing |
| `BmwTree.DrainConserves` | software/SDL_compiler/compiler/vPIFO_trace.cpp:113-125 | what any number of pops returned, plus what is left, is what the tree held |
| `BmwTree.DrainSorted` | software/SDL_compiler/compiler/vPIFO_trace.cpp:113-125 | each returned element precedes all later ones and all that is left |
| `BmwDepth.PushCountersBelow` | software/SDL_compiler/compiler/vPIFO_trace.cpp:101-110 | a push keeps every `num[d]` at most the size of son d |
| `BmwDepth.PopCountersBelow` | software/SDL_compiler/compiler/vPIFO_trace.cpp:120-123 | so does a pop, whatever son it enters |
| `BmwDepth.RunCountersBelow` | software/SDL_compiler/compiler/vPIFO_trace.cpp:81-125 | so does every run of pushes and pops |
| `BmwDepth.PopCountersExact` | software/SDL_compiler/compiler/vPIFO_trace.cpp:120-123 | a pop leaves exact counters exact if and only if it never enters a son that exists and is empty |
| `BmwDepth.PushDepth` | software/SDL_compiler/compiler/vPIFO_trace.cpp:101-110 | with exact counters a push into a tree of fewer than 2^(h+1)-2 elements and at most h levels stays within h levels |
| `BmwDepth.RunDepth` | software/SDL_compiler/compiler/vPIFO_trace.cpp:81-125 | a run that never exceeds 2^(h+1)-2 elements and whose pops are clean keeps the counters exact and the tree within h levels |
| `BmwDepth.CounterGoesNegative` | software/SDL_compiler/compiler/vPIFO_trace.cpp:120-123 | three pushes and two pops leave `num[0]` at -1 over an empty son |
| `BmwDepth.DepthBoundNeedsCleanPops` | software/SDL_compiler/compiler/vPIFO_trace.cpp:101-123 | five more pushes reach a third level although only six elements are held, which fit in two |
| `Forest.Forest.constructor` | software/SDL_compiler/compiler/vPIFO_trace.cpp:57-79 | the roots are fresh trees in one pool |
| `Forest.Forest.GetSon` | software/SDL_compiler/compiler/vPIFO_trace.cpp:81-87 | returns the son under a link, hanging a fresh cell with the next index there if there was none |
| `Forest.Forest.Push` | software/SDL_compiler/compiler/vPIFO_trace.cpp:89-111 | in the shared pool: does to the subtree exactly what the tree push does, changes no cell outside it, allocates at most one cell, and ends because a son has a larger index than its parent |
| `Forest.Forest.Pop` | software/SDL_compiler/compiler/vPIFO_trace.cpp:113-125 | in the shared pool: returns the subtree's top, pops the subtree and nothing else, allocates nothing |
| `Forest.Forest.Top` | software/SDL_compiler/compiler/vPIFO_trace.cpp:137-144 | returns the subtree's top |
| `Forest.Forest.PushTree` | software/SDL_compiler/compiler/vPIFO_trace.cpp:577 | tree k is pushed and all other trees of the pool are what they were |
| `Forest.Forest.PopTree` | software/SDL_compiler/compiler/vPIFO_trace.cpp:494 | tree k is popped, its least element returned, and all other trees are what they were |
| `Forest.Forest.TopTree` | software/SDL_compiler/compiler/vPIFO_trace.cpp:394-395 | the top of tree k |
| `ForestRuns.RunOps` | software/SDL_compiler/compiler/vPIFO_trace.cpp:79-144 | any interleaving of pushes and pops on the trees, carried out on the shared node pool, leaves each tree and returns from each pop what the run on tree values says |
| `ForestRuns.AnswersIndependent` | software/SDL_compiler/compiler/vPIFO_trace.cpp:113-125 | what the pops of a tree return in that run is what they return in a run of its own operations |
| `ForestRuns.AnswersConserve` | software/SDL_compiler/compiler/vPIFO_trace.cpp:89-125 | for a tree of the run, the elements its pops returned and those it holds at the end are those it held and those pushed into it |
| `ForestRuns.AnswerIsLeast` | software/SDL_compiler/compiler/vPIFO_trace.cpp:113-125 | each pop of a run returns a least element of what its tree holds then, or a vacant one exactly if it holds nothing |
| `ForestRuns.TreesIndependent` | software/SDL_compiler/compiler/vPIFO_trace.cpp:79-144 | in that run each tree is what its own operations alone make of it |
| `ForestRuns.RunFresh` | software/SDL_compiler/compiler/vPIFO_trace.cpp:57-144 | from a new pool: each tree is the result of its own operations, and if every tree keeps within the capacity of h levels with clean pops the pool has at most m * 2^h cells |
| `PoolBound.AllocatorStaysInside` | software/SDL_compiler/compiler/vPIFO_trace.cpp:57-66 | while no tree is deeper than h, the allocator has given out at most m * (2^h - 1) indices |
| `ForestRuns.PoolNeverOverflows` | software/SDL_compiler/compiler/vPIFO_trace.cpp:57-87 | a pool whose trees are the results of such runs fits in m * 2^h cells; with h = L that is `node[M<<L]` |
| `Ring.ShiftInPlace` | software/SDL_compiler/compiler/vPIFO_trace.cpp:542-564 | the in-place loop with the two-slot scrolling array equals the simultaneous shift of all cells |
| `Ring.ShiftOk` | software/SDL_compiler/compiler/vPIFO_trace.cpp:542-564 | the shift keeps the ring invariant (each task at its RPU, behind a Pop only its own WriteBack half or a task in its last cycle), and afterwards every Pop has its own half behind it |
| `Ring.IssueAtOk` | software/SDL_compiler/compiler/vPIFO_trace.cpp:569-594 | issuing keeps the ring invariant, for any lock |
| `Ring.SendOk` | software/SDL_compiler/compiler/vPIFO_trace.cpp:566-595 | so does the whole sending loop |
| `Ring.KeepsBack` | software/SDL_compiler/compiler/vPIFO_trace.cpp:569-594 | an unlocked empty cell keeps its list back if and only if the head is a Pop and the cell before holds a task with at least two cycles to go |
| `Ring.TakesHead` | software/SDL_compiler/compiler/vPIFO_trace.cpp:569-594 | a cell whose turn changes anything was empty and unlocked, and takes the head of its own list |
| `Ring.PushIssues` | software/SDL_compiler/compiler/vPIFO_trace.cpp:573-580 | a Push that issues changes its own cell and list and nothing else |
| `Ring.PopIssues` | software/SDL_compiler/compiler/vPIFO_trace.cpp:581-592 | a Pop that issues also locks the cell before it, if empty, and changes nothing else |
| `Ring.EarlierCellWins` | software/SDL_compiler/compiler/vPIFO_trace.cpp:567-595 | cells have their turns in order: of two free neighbours, the first with a Push and the second with a Pop, the first issues and the second waits |
| `RingRuns.StepMoves` | software/SDL_compiler/compiler/vPIFO_trace.cpp:542-595 | a cycle moves every Push, Pop and WriteBack that is not ending one RPU on, with one cycle less, and each Pop leaves its WriteBack half: nothing is overwritten |
| `RingRuns.StepOrigin` | software/SDL_compiler/compiler/vPIFO_trace.cpp:542-595 | conversely whatever is in a cell was issued just now, or was one RPU behind, or is the half of the Pop that was there |
| `RingRuns.RunOk` | software/SDL_compiler/compiler/vPIFO_trace.cpp:468-595 | the ring invariant holds in every state of every run, for any lists and locks |
| `RingRuns.TaskTravels` | software/SDL_compiler/compiler/vPIFO_trace.cpp:542-595 | a task issued at RPU c is at RPU (c + d) mod N after d cycles for all its L cycles, and a Pop writes back in each of these cells one cycle later |
| `RingRuns.TaskWasIssued` | software/SDL_compiler/compiler/vPIFO_trace.cpp:542-595 | every Push or Pop with k cycles to go was issued L - k cycles ago at RPU root mod N |
| `RingCounts.ShiftCounts` | software/experiment/algorithm_simulation/vPIFO_pipeline.cpp:58-89 | a shift loses exactly the tasks that complete in this cycle |
| `RingCounts.SendCounts` | software/experiment/algorithm_simulation/vPIFO_pipeline.cpp:91-113 | sending moves tasks from lists to ring and neither adds nor loses any; if none left a list nothing changed |
| `RingCounts.RestIssues` | software/experiment/algorithm_simulation/vPIFO_pipeline.cpp:91-113 | a ring at rest with anything waiting issues something |
| `Pipeline.Pipeline.constructor` | software/experiment/algorithm_simulation/vPIFO_pipeline.cpp:39-51 | a batch of Pushes and Pops in the lists of their trees, counted in `task_num` |
| `Pipeline.Pipeline.CountCompleted` | software/experiment/algorithm_simulation/vPIFO_pipeline.cpp:58-65 | `task_num` goes down by the Pushes and WriteBacks in their last cycle |
| `Pipeline.Pipeline.SendTasks` | software/experiment/algorithm_simulation/vPIFO_pipeline.cpp:91-113 | the sending loop does what the ring specification says |
| `Pipeline.Pipeline.OneCycle` | software/experiment/algorithm_simulation/vPIFO_pipeline.cpp:55-114 | a cycle keeps `task_num` equal to the tasks waiting plus the tasks in the ring, and lowers the measure (N + 2) * waiting + remaining life |
| `Pipeline.Pipeline.SendTask` | software/experiment/algorithm_simulation/vPIFO_pipeline.cpp:93-112 | one cell's turn |
| `Pipeline.Pipeline.Run` | software/experiment/algorithm_simulation/vPIFO_pipeline.cpp:55-114 | the loop ends within (N + 2) * `task_num` cycles, with `task_num` zero, all lists empty and no Push, Pop or WriteBack left; the history of the ring and the lists is a run that starts with the batch |
| `Completion.CompletesOnce` | software/experiment/algorithm_simulation/vPIFO_pipeline.cpp:58-89 | a task issued at time t in cell c is counted at time t + l - 1, a Pop one later, in cell (c + l - 1) mod N |
| `Completion.CompletionWasIssued` | software/experiment/algorithm_simulation/vPIFO_pipeline.cpp:58-89 | whatever is counted at a time in a cell is the task that was issued just that long before in its tree's cell, so issues and completions correspond one to one |
| `Completion.CountedInTime` | software/experiment/algorithm_simulation/vPIFO_pipeline.cpp:55-114 | in a history that ends at rest every issued task is counted in one of its cycles |
| `Completion.EveryTaskOnce` | software/experiment/algorithm_simulation/vPIFO_pipeline.cpp:55-114 | if the history ends at rest with an empty list, each task of that list was issued in the list's own cell when just it and its successors were left, and was counted complete |
| `SchedulerSafety.BalAppend` | software/SDL_compiler/compiler/vPIFO_trace.cpp:150-157 | appending a task keeps the running count of a list non-negative if and only if its end can afford the task |
| `SchedulerSafety.EnqueueFlowSafe` | software/SDL_compiler/compiler/vPIFO_trace.cpp:354-371 | handing a packet to its leaf and to the root keeps every tree's count safe and adds one to the root's |
| `SchedulerSafety.TryPopSafe` | software/SDL_compiler/compiler/vPIFO_trace.cpp:393-403 | a credit is only spent when the root's account can afford a Pop, whichever flow it is charged to |
| `SchedulerSafety.ExecutesOnElement` | software/SDL_compiler/compiler/vPIFO_trace.cpp:492-503 | in a safe state a Pop that executes finds its tree non-empty, and a root Pop returns the number of a leaf |
| `SchedulerSafety.RunSafe` | software/SDL_compiler/compiler/vPIFO_trace.cpp:468-595 | every state of every run is safe, for any locks, if the trace has no more pop than push lines, names leaves in 1..M-1 and has ranks below the sentinel |
| `SchedulerSafety.BoundsHold` | software/SDL_compiler/compiler/vPIFO_trace.cpp:393-403 | in a safe state, with a flow map whose flows have counters: the root's top names a leaf tree, the flow of any packet has a credit counter, and tasks in the ring and at the heads of lists are of existing trees |
| `SchedulerTyped.RunTyped` | software/SDL_compiler/compiler/vPIFO_trace.cpp:468-595 | in every state of every run, however many credits there are, tasks are at their RPUs and in their lists, trees are heaps and the root tree holds leaf numbers |
| `SchedulerSafety.NoEmptyPop` | software/SDL_compiler/compiler/vPIFO_trace.cpp:487-527 | in every cycle of every such run no root or leaf Pop executes on an empty tree |
| `Conservation.RunKept` | software/SDL_compiler/compiler/vPIFO_trace.cpp:468-595 | in every state of every such run each packet of the trace is in exactly one of its flow's queue, its leaf's task list, its leaf tree and the output |
| `RootOrder.ListsGiven` | software/SDL_compiler/compiler/vPIFO_trace.cpp:354-371 | each cycle every flow gives its head, in the order of the flows, with rank p0 to its leaf's list and then with rank p1 and the leaf's number to the root's list |
| `RootOrder.RootKept` | software/SDL_compiler/compiler/vPIFO_trace.cpp:354-371 | in every state of every such run each packet's (p1, leaf) is in exactly one of its flow's queue, the root's Pushes, the root tree and what executed root Pops took |
| `RootOrder.RootAsksLeast` | software/SDL_compiler/compiler/vPIFO_trace.cpp:493-503 | an executing root Pop takes the least (p1, leaf) of the root tree and puts a Pop into that leaf's list |
| `Execution.TreesPopped` | software/SDL_compiler/compiler/vPIFO_trace.cpp:487-527 | in a cycle a tree loses its top if a Pop of it was issued in the cycle before, and otherwise stays |
| `Execution.DepartsNow` | software/SDL_compiler/compiler/vPIFO_trace.cpp:505-519 | what departs in a cycle are, in RPU order, the tops of the leaves whose Pop was issued in the cycle before |
| `Execution.LeafAsked` | software/SDL_compiler/compiler/vPIFO_trace.cpp:498-503 | the lists gain a Pop of the leaf named by the root's top if a root Pop was issued in the cycle before, and nothing else |
| `CreditUse.TryPopSpends` | software/SDL_compiler/compiler/vPIFO_trace.cpp:393-403 | a credit is spent if and only if the root's least element names a leaf whose least packet is of a flow with a credit; then that count goes down by one and one root Pop joins list 0, and nothing else changes |
| `CreditUse.IntakeSpends` | software/SDL_compiler/compiler/vPIFO_trace.cpp:475-481 | no credit is spent through cycle 50, and from cycle 51 on one is whenever it can be |
| `DepartsOnce.DepartedWasPushed` | software/SDL_compiler/compiler/vPIFO_trace.cpp:493-519 | a departure is a packet of the trace that has left its flow's queue, and it is in the output once |
| `DepartsOnce.NeverTwice` | software/SDL_compiler/compiler/vPIFO_trace.cpp:493-519 | no packet departs twice in a run |
| `FlowOrder.LeastIsOldest` | software/SDL_compiler/compiler/vPIFO_trace.cpp:113-125 | the least element of a leaf, if it is of a flow with increasing (rank, meta), is the flow's oldest packet there |
| `FlowOrder.RunOrder` | software/SDL_compiler/compiler/vPIFO_trace.cpp:468-595 | in every state a flow's arrivals are cut, in order, into departed, held by the leaf tree, listed and queued |
| `FlowOrder.FlowIsFifo` | software/SDL_compiler/compiler/vPIFO_trace.cpp:468-595 | what a flow has sent is a prefix of what arrived for it |
| `Machine.Machine.constructor` | software/SDL_compiler/compiler/vPIFO_trace.cpp:442-466 | empty ring, lists and trees, with the queues and credits that were read |
| `Machine.Machine.PushTask` | software/SDL_compiler/compiler/vPIFO_trace.cpp:152-157 | appends to the list of the task's RPU |
| `Machine.Machine.TryPushPushTask` | software/SDL_compiler/compiler/vPIFO_trace.cpp:354-371 | one packet of each flow goes to its leaf's list and to the root's list, as the state machine says |
| `Machine.Machine.TryPushPopTask` | software/SDL_compiler/compiler/vPIFO_trace.cpp:393-403 | looks at the current top packet and spends a credit of its flow on a root Pop, as the state machine says, indexing the credit counters without a test |
| `Machine.Machine.Statistics` | software/SDL_compiler/compiler/vPIFO_trace.cpp:487-527 | every Pop in its first cycle executes, cell by cell, as the state machine says |
| `Machine.Machine.ExecuteAt` | software/SDL_compiler/compiler/vPIFO_trace.cpp:493-520 | a root Pop turns into a leaf Pop, a leaf Pop into a departure |
| `Machine.Machine.SendTasks` | software/SDL_compiler/compiler/vPIFO_trace.cpp:566-595 | the sending loop with the pushes into the trees, as the state machine says |
| `Machine.Machine.SendTask` | software/SDL_compiler/compiler/vPIFO_trace.cpp:569-594 | one cell's turn, including the reservation of the cell before a Pop |
| `Machine.Machine.RunCycle` | software/SDL_compiler/compiler/vPIFO_trace.cpp:468-595 | one pass of the main loop on arrays, queues and pool is one step of the state machine and keeps the state safe; every index used is in bounds |
| `Machine.Machine.RunCycles` | software/SDL_compiler/compiler/vPIFO_trace.cpp:468-595 | any number of passes under any locks |
| `Machine.CycleIsRingStep` | software/SDL_compiler/compiler/vPIFO_trace.cpp:542-595 | the scheduler's ring makes exactly the step of the bare ring, fed with the lists of the moment |
| `Standstill.IdleCycle` | software/SDL_compiler/compiler/vPIFO_trace.cpp:393-403 | with empty ring, lists and packet queues a cycle changes nothing but the clock if and only if it is one of the first fifty, or there is no least packet of the least leaf whose flow has a credit |
| `Standstill.WaitsForGood` | software/SDL_compiler/compiler/vPIFO_trace.cpp:468-595 | and without such a credit nothing but the clock ever changes again, for any locks |
| `Standstill.CreditOfAnotherFlow` | software/SDL_compiler/compiler/vPIFO_trace.cpp:393-403 | such a state with a packet of flow 1 held and a credit left for flow 0 |
| `Wfq.RealTimeNotPast` | software/SDL_compiler/compiler/WFQ.h:29-35 | despite the truncation of the departure time the real clock never passes the arrival it is heading for |
| `Wfq.Strategy.constructor` | software/SDL_compiler/compiler/WFQ.cpp:14-24 | clocks at zero, nothing outstanding |
| `Wfq.Strategy.Depart` | software/SDL_compiler/compiler/WFQ.cpp:27-35 | a departure moves the virtual clock to it, never back, and the weight sum stays that of the outstanding packets |
| `Wfq.Strategy.UpdateVirTimeTo` | software/SDL_compiler/compiler/WFQ.cpp:26-40 | packets depart in order as long as they are due, with the clocks and weight sum after each given by a fold over them; everything left departs later than the clock would read at the arrival; the virtual clock stays at the last departure, and that is its reading at the arrival if and only if no time passes in between; the divisor is never zero |
| `Wfq.ClockStands` | software/SDL_compiler/compiler/WFQ.cpp:37-39 | an arrival at time 10 at which the virtual clock stays at 0 and would read 5 |
| `Wfq.ClocksInverse` | software/SDL_compiler/compiler/WFQ.h:29-35 | the two conversions are inverse: real time n is given for virtual time d if and only if virtual time d is given for real time n |
| `Wfq.OneDeparts` | software/SDL_compiler/compiler/WFQ.cpp:26-64 | packets of 10, 12 and 1 bytes, the third at time 21: the first departs at real time 20, the second stays, the clock stops at 10 and the third gets rank 10 |
| `Wfq.TruncTowardsZero` | software/SDL_compiler/compiler/WFQ.cpp:32 | the cast goes towards zero by less than one |
| `Wfq.NoTimePasses` | software/SDL_compiler/compiler/WFQ.h:29-31 | the virtual clock keeps its reading over a stretch of real time if and only if no time passes |
| `Wfq.Strategy.CalPriority` | software/SDL_compiler/compiler/WFQ.cpp:42-90 | the start tag is the later of the virtual clock and the flow's last finish, the rank its integer part, the clock is where it was or at a departure, and the invariants hold again |
| `Wfq.Strategy.TagTrace` | software/SDL_compiler/compiler/WFQ.cpp:42-64 | over a whole trace in time order every start tag is the later of the clock and the finish of the flow's previous packet, and the (rank, number) pairs of each flow strictly increase |
| `Wfq.StartsGrow` | software/SDL_compiler/compiler/WFQ.cpp:51-58 | within a flow no start tag is before the finish of an earlier packet |
| `Wfq.TagsInOrder` | software/SDL_compiler/compiler/WFQ.cpp:51-63 | so integer part and number strictly increase within a flow |
| `FlowRanks.InitFlowRemainingSize` | software/SDL_compiler/compiler/PFabric.cpp:23-31 | the table holds exactly the flows of the capture, each with all its bytes |
| `FlowRanks.TagPFabric` | software/SDL_compiler/compiler/PFabric.cpp:58-70 | every packet's rank is its flow's total, and within a flow (rank, number) increases; the pass fails exactly if a flow has no bytes |
| `FlowRanks.TagByTable` | software/SDL_compiler/compiler/SP.cpp:19-27 | every packet's rank is its flow's entry, and within a flow (rank, number) increases |
| `FlowRanks.TagByWfq` | software/SDL_compiler/compiler/WFQ.cpp:42-64 | the ranks of a trace are those of WFQ, and within a flow (rank, number) increases |
| `FlowRanks.TaggedInOrder` | software/SDL_compiler/compiler/SchedStrategy.cpp:79-101 | ranks that WFQ, a priority table or pFabric returned increase, with the packet number, within each flow |
| `StrategyFifo.RankedIsOneLeaf` | software/SDL_compiler/compiler/SchedStrategy.cpp:227-230 | if the strategy of a leaf ranked the packets of that leaf, each flow of it goes to one leaf with ranks that never decrease |
| `StrategyFifo.FifoUnderStrategies` | software/SDL_compiler/compiler/vPIFO_trace.cpp:464-595 | from any capture, for any locks, under WFQ, strict priority and pFabric: what a flow has sent at any time is a prefix of its packets in capture order |
| `Fairness.ServedIsPrefix` | software/SDL_compiler/compiler/vPIFO_trace.cpp:113-125 | of a backlogged flow any number of pops serves the oldest packets |
| `Fairness.AheadBounded` | software/SDL_compiler/compiler/WFQ.cpp:42-64 | a flow is ahead of another by less than its longest packet per weight, plus one for the cast of the rank |
| `Fairness.BacklogTags` | software/SDL_compiler/compiler/WFQ.cpp:51-63 | the tags WFQ gives a flow whose packets arrive before the previous one's finish are its first start tag plus the work before |
| `Fairness.ServedOf` | software/SDL_compiler/compiler/vPIFO_trace.cpp:113-125 | what pops serve of a flow that still has a packet queued is the work of its first packets |
| `Fairness.FairShares` | software/SDL_compiler/compiler/WFQ.cpp:42-64 | two backlogged flows of one leaf with equal first start tags, whatever else the leaf holds: after any number of pops that leaves both queued, the bytes per weight among what was popped differ by less than the larger of their longest packets per weight, plus one |
| `Fairness.FairTrace` | software/SDL_compiler/compiler/WFQ.cpp:42-64 | the same bound for two flows of any trace that WFQ tagged, whatever other flows it has, in terms of the trace, its tags, the capture-wide packet numbers and what was popped |
| `LeafService.QuietLeafDrains` | software/SDL_compiler/compiler/vPIFO_trace.cpp:468-595 | from a safe state on, for any locks, a leaf into which nothing more is pushed sends exactly what as many pops of its tree return, in that order |
| `LeafService.FairDepartures` | software/SDL_compiler/compiler/vPIFO_trace.cpp:493-519 | so the fairness bound holds of what two backlogged flows of that leaf have sent since, as long as a packet of each is not sent |
| `SramLayout.PlaceOne` | software/SDL_compiler/gen_SRAM_layout/gen_SRAM_layout.py:60-63 | putting a region on top of its bank keeps the regions disjoint and without gaps |
| `SramLayout.LayoutTree` | software/SDL_compiler/gen_SRAM_layout/gen_SRAM_layout.py:58-63 | the inner loop adds exactly the levels of one tree |
| `SramLayout.Layout` | software/SDL_compiler/gen_SRAM_layout/gen_SRAM_layout.py:53-63 | for distinct tree ids each (tree, level) has a region of 2^level addresses in bank (tree + level) mod SRAM_NUM, starting where the levels placed before it in that bank end; regions are disjoint and every address below a bank's mark belongs to one |
| `SramLayout.LevelsApart` | software/SDL_compiler/gen_SRAM_layout/gen_SRAM_layout.py:57-63 | levels of one tree are in different banks when there are at least as many banks |
| `SramLayout.RpuIsBank` | software/SDL_compiler/gen_SRAM_layout/gen_SRAM_layout.py:57-63 | in every state of every run a task of tree r with k cycles to go is at the RPU whose number is the bank of level L - k of tree r |
| `AddressTable.FormatExact` | software/SDL_compiler/gen_SRAM_layout/gen_SRAM_layout.py:96-100 | a value that fits is written in exactly its width and reads back; width zero gives one digit |
| `AddressTable.RowDecodes` | software/SDL_compiler/gen_SRAM_layout/gen_SRAM_layout.py:65-103 | every allocated row decodes to its bank and address; it has the computed width if and only if there are at least two banks and some bank has at least two addresses |
| `AddressTable.RowIsNumber` | software/SDL_compiler/gen_SRAM_layout/gen_SRAM_layout.py:95-102 | a row is the bank number above the address |
| `AddressTable.UnusedRowIsOnes` | software/SDL_compiler/gen_SRAM_layout/gen_SRAM_layout.py:98-100 | a row of no tree and level is all ones |
| `AddressTable.OneBankRowIsLong` | software/SDL_compiler/gen_SRAM_layout/gen_SRAM_layout.py:65-70 | one tree of one level in one bank: the computed widths are zero and the row has two digits |
| `AddressTable.TableAt` | software/SDL_compiler/gen_SRAM_layout/gen_SRAM_layout.py:91-103 | the row of (tree, level) is number tree * levels + level |
| `AddressTable.WriteTable` | software/SDL_compiler/gen_SRAM_layout/gen_SRAM_layout.py:91-103 | the two loops write that table |
| `TokenBucket.TxPort.constructor` | software/experiment/DPDK_scheduler/transmit.c:7-21 | a full bucket |
| `TokenBucket.TxPort.Transmit` | software/experiment/DPDK_scheduler/transmit.c:66-101 | one call on 64-bit words: generate, cap at two buckets (a 32-bit shift), wait for a bucket, send; tokens generated on an empty ring are not stored |
| `TokenBucket.StepConforms` | software/experiment/DPDK_scheduler/transmit.c:66-101 | a call keeps tokens within two buckets, and bytes sent plus tokens grow by at most what the time earned, if and only if the tokens cover what it sends |
| `TokenBucket.StepIs` | software/experiment/DPDK_scheduler/transmit.c:76-101 | with less than a bucket in hand a call only earns; with more it keeps what it had before if the ring is empty, and else sends and pays |
| `TokenBucket.EmptyRingEarnsNothing` | software/experiment/DPDK_scheduler/transmit.c:91-93 | with a bucket or more, calls on an empty ring leave the tokens as they are, however long they last |
| `TokenBucket.StaysAtOneBucket` | software/experiment/DPDK_scheduler/transmit.c:7-21 | a port that never finds a packet has exactly its bucket at every time |
| `TokenBucket.WaitsAfterIdling` | software/experiment/DPDK_scheduler/transmit.c:76-101 | after a thousand cycles on an empty ring and one packet, the next packet waits until the bucket is full again |
| `TokenBucket.UnlimitedSends` | software/experiment/DPDK_scheduler/transmit.c:77-101 | with rate zero every packet goes at once and no account is kept |
| `TokenBucket.Conformance` | software/experiment/DPDK_scheduler/transmit.c:66-101 | at every moment of a run tokens are within two buckets and bytes sent plus tokens within bucket_size + floor(tx_rate_scale * elapsed / 2^20), if and only if the tokens cover every packet sent |
| `TokenBucket.ShortPacketsConform` | software/experiment/DPDK_scheduler/transmit.c:66-101 | with packets no longer than the bucket, over any run bytes sent are at most bucket_size + floor(tx_rate_scale * elapsed / 2^20), and tokens within 0..2*bucket_size |
| `TokenBucket.SendIsExact` | software/experiment/DPDK_scheduler/transmit.c:98-101 | a send takes the packet's length from the tokens if and only if the tokens cover it; otherwise the word wraps |
| `TokenBucket.OversizedPacketEscapes` | software/experiment/DPDK_scheduler/transmit.c:98-101 | two packets of 1500 bytes go through a bucket of 100 bytes at once and break the bound |
| `TagHeap.Exclusive` | software/experiment/ns3_simulation/network/model/packet-tag-list.cc:37-155 | the nodes of a list up to which all counts are one are on no other list |
| `TagOps.CopySharedOk` | software/experiment/ns3_simulation/network/model/packet-tag-list.cc:129-145 | copying a shared node for one list keeps counts exact, and only that list can read a difference |
| `TagSteps.UnlinkSharedOk` | software/experiment/ns3_simulation/network/model/packet-tag-list.cc:163-194 | unlinking a shared node: the list no longer reads it, all others still do |
| `TagSteps.UnlinkOwnedOk` | software/experiment/ns3_simulation/network/model/packet-tag-list.cc:163-194 | unlinking and deleting a node of one's own: nobody else pointed to it |
| `TagSteps.RewriteOk` | software/experiment/ns3_simulation/network/model/packet-tag-list.cc:207-241 | rewriting a node of one's own changes that list only |
| `TagSteps.PrependOk` | software/experiment/ns3_simulation/network/model/packet-tag-list.cc:243-261 | prepending changes that list only |
| `TagSteps.JoinOk` | software/experiment/ns3_simulation/network/model/packet-tag-list.h:309-316 | an empty list that joins another reads the same, with counts exact |
| `TagSteps.LeaveOk` | software/experiment/ns3_simulation/network/model/packet-tag-list.h:340-362 | a list that leaves a shared node reads nothing, all others as before |
| `TagList.TagStore.Create` | software/experiment/ns3_simulation/network/model/packet-tag-list.h:304-307 | a new list with nothing on it; no other list reads a change |
| `TagList.TagStore.Peek` | software/experiment/ns3_simulation/network/model/packet-tag-list.cc:263-279 | finds the first tag of the type if there is one |
| `TagList.TagStore.Add` | software/experiment/ns3_simulation/network/model/packet-tag-list.cc:243-261 | prepends to one list; each count is the number of links, and no other list reads a change |
| `TagList.TagStore.CopyOf` | software/experiment/ns3_simulation/network/model/packet-tag-list.h:309-316 | a new list that goes through the nodes of the other |
| `TagList.TagStore.Assign` | software/experiment/ns3_simulation/network/model/packet-tag-list.h:318-333 | the list goes through the nodes of the other, self-assignment and shared heads included |
| `TagList.TagStore.RemoveAll` | software/experiment/ns3_simulation/network/model/packet-tag-list.h:340-362 | the list is empty; only nodes nobody points to are deleted; no other list reads a change |
| `TagList.TagStore.Destroy` | software/experiment/ns3_simulation/network/model/packet-tag-list.h:335-338 | the list is gone; no other list reads a change |
| `TagList.TagStore.Traverse` | software/experiment/ns3_simulation/network/model/packet-tag-list.cc:37-155 | finds the first tag of the type; afterwards every node before it belongs to the list alone, and all lists, this one included, read what they read; nothing changes if the type does not occur or nothing before it is shared, and the nodes from the found one on, and those of its own, are never copied |
| `TagList.TagStore.Remove` | software/experiment/ns3_simulation/network/model/packet-tag-list.cc:157-194 | removes the first tag of the type from this list only, and keeps the nodes after it |
| `TagList.TagStore.Replace` | software/experiment/ns3_simulation/network/model/packet-tag-list.cc:196-241 | replaces the first tag of the type on this list only, without a new node if the list has it to itself, or prepends |
| `BufferSteps.GrowStartOk` | software/experiment/ns3_simulation/network/model/buffer.cc:308-326 | growing in place at the start overlaps bytes of no other live buffer |
| `BufferSteps.GrowEndOk` | software/experiment/ns3_simulation/network/model/buffer.cc:353-372 | growing in place at the end overlaps bytes of no other live buffer, although the dirty end counts virtual zeros |
| `BufferSteps.MoveOk` | software/experiment/ns3_simulation/network/model/buffer.cc:327-345 | moving to a new block leaves every other buffer as it was |
| `BufferSteps.PokeOk` | software/experiment/ns3_simulation/network/model/buffer.h:868-883 | writing a byte that is the buffer's own changes that buffer only |
| `BufferSteps.PokeSeen` | software/experiment/ns3_simulation/network/model/buffer.h:868-883 | no other buffer sees a write if and only if the byte is the buffer's own or keeps its value |
| `Buffers.BufferStore.Create` | software/experiment/ns3_simulation/network/model/buffer.cc:188-256 | a buffer of zeros none of which is stored; with none it is the empty buffer |
| `Buffers.BufferStore.CopyOf` | software/experiment/ns3_simulation/network/model/buffer.h:1049-1059 | a new buffer with the same bytes |
| `Buffers.BufferStore.Assign` | software/experiment/ns3_simulation/network/model/buffer.cc:258-281 | the buffer has the bytes of the other; no other buffer changes |
| `Buffers.BufferStore.Destroy` | software/experiment/ns3_simulation/network/model/buffer.cc:283-293 | the buffer is gone; its block is freed exactly if nobody else uses it |
| `Buffers.BufferStore.AddAtStart` | software/experiment/ns3_simulation/network/model/buffer.cc:308-352 | n more bytes in front, stored and private to the buffer; the old bytes follow; start <= zeroStart <= zeroEnd <= end; no other buffer changes; in place if and only if there is room and nobody shares the block or reaches further |
| `Buffers.BufferStore.AddAtEnd` | software/experiment/ns3_simulation/network/model/buffer.cc:353-397 | n more bytes at the end, stored and private; in place under the same condition |
| `Buffers.BufferStore.AddBuffer` | software/experiment/ns3_simulation/network/model/buffer.cc:399-438 | appends the bytes of another buffer or of the same one; adjacent zero areas are joined and stay virtual exactly if the buffer is alone on its block and ends with its zeros and the other starts with some, else all bytes are stored |
| `Buffers.BufferStore.RemoveAtStart` | software/experiment/ns3_simulation/network/model/buffer.cc:440-484 | drops the first bytes, across the zero area if need be, when the 32-bit sum of start and count does not wrap; otherwise moves the start back, as the code does |
| `Buffers.DropIsExact` | software/experiment/ns3_simulation/network/model/buffer.cc:445 | the size goes down by the bytes removed if and only if that sum does not wrap |
| `Buffers.BufferStore.RemoveAtEnd` | software/experiment/ns3_simulation/network/model/buffer.cc:485-519 | drops the last bytes |
| `Buffers.BufferStore.CreateFragment` | software/experiment/ns3_simulation/network/model/buffer.cc:521-531 | when that sum does not wrap: the slice from start of the given length, and an empty buffer if that reaches past the end; in every case the window the two removals leave, with no stored byte changed |
| `Buffers.FragmentPastEndIsEmpty` | software/experiment/ns3_simulation/network/model/buffer.cc:521-531 | a window of three bytes: its fragment of two bytes from the last on is empty |
| `Buffers.FragmentMovesBack` | software/experiment/ns3_simulation/network/model/buffer.cc:445 | the same window: a fragment of five bytes from 2^32 - 5 is the five bytes in front of it |
| `Buffers.BufferStore.CreateFullCopy` | software/experiment/ns3_simulation/network/model/buffer.cc:533-556 | the same bytes, all of them stored, sharing the block if there was no zero area |
| `Buffers.BufferStore.PeekU8` | software/experiment/ns3_simulation/network/model/buffer.h:996-1016 | reads the byte of the byte sequence |
| `Buffers.BufferStore.WriteU8` | software/experiment/ns3_simulation/network/model/buffer.h:868-883 | sets one byte; others see it exactly when they show that byte and it changes |
| `BufferSteps.SharedWriteIsSeen` | software/experiment/ns3_simulation/network/model/buffer.h:868-883 | two buffers on one block: what one writes the other reads |
| `TracePasses.Tagger.TagHandler` | software/SDL_compiler/compiler/SchedStrategy.cpp:216-252 | the lines of one captured packet and the counters after it |
| `TracePasses.Tagger.MapHandler` | software/SDL_compiler/compiler/SchedStrategy.cpp:288-314 | the flow line of one captured packet and the same counters after it |
| `TracePasses.Tagger.TagPriority` | software/SDL_compiler/compiler/SchedStrategy.cpp:254-284 | the whole trace |
| `TracePasses.Tagger.PrintPFMap` | software/SDL_compiler/compiler/SchedStrategy.cpp:316-341 | the flow lines, one for each packet the trace pass takes, under the same numbers |
| `TracePasses.TraceLines` | software/SDL_compiler/compiler/SchedStrategy.cpp:233-252 | push line k is of taken packet k, with number k, its leaf and its ranks |
| `TracePasses.TraceWellFormed` | software/SDL_compiler/compiler/SchedStrategy.cpp:233-252 | every push line is followed by a pop line, every pop line follows a push line, every idle count fits 8 bits |
| `TracePasses.GapTells` | software/SDL_compiler/compiler/SchedStrategy.cpp:235-242 | an idle line comes before a packet more than one cycle after the one before; its count plus one is the distance up to 108 cycles, and 108 beyond; before the first packet it is 10 |
| `TracePasses.TakenUntilFiveGaps` | software/SDL_compiler/compiler/SchedStrategy.cpp:217-225 | a packet is taken if and only if its flow is known and fewer than five gaps came before it |
| `TracePasses.ClockIsLast` | software/SDL_compiler/compiler/SchedStrategy.cpp:243-246 | the clock of the passes is the cycle of the last packet taken, and the number of the next the count of those taken |
| `TracePasses.EndsIdle` | software/SDL_compiler/compiler/SchedStrategy.cpp:278 | the trace ends with 255 idle cycles |
| `TracePasses.EveryMetaFound` | software/SDL_compiler/compiler/SchedStrategy.cpp:288-314 | each number in the trace is in the flow map, with that packet's flow |
| `TraceText.GetNumber` | software/SDL_compiler/compiler/vPIFO_trace.cpp:197-208 | the number made of a word's digits after the skipped ones |
| `TraceText.LineReads` | software/SDL_compiler/compiler/vPIFO_trace.cpp:287-326 | reading the words of a printed line gives the record without its signs, and leaves the rest |
| `TraceText.PrintedWords` | software/SDL_compiler/compiler/SchedStrategy.cpp:233-251 | the words of an idle, a push and a pop line |
| `TraceText.UnknownTypePassedOver` | software/SDL_compiler/compiler/vPIFO_trace.cpp:287-321 | a word of an unknown type is passed over |
| `TraceText.TraceRoundTrip` | software/SDL_compiler/compiler/vPIFO_trace.cpp:287-326 | a printed trace reads back as the same records if and only if no number in it is negative |
| `TraceText.NegativeRankMisread` | software/SDL_compiler/compiler/vPIFO_trace.cpp:197-208 | a printed rank of -1 reads back as 1 |
| `TraceLoad.ReadTrace` | software/SDL_compiler/compiler/vPIFO_trace.cpp:287-326 | the reading loop fills the queues and credits line by line, passes over words of an unknown type, and fails exactly where an assertion on the flow map would |
| `TraceLoad.FailsExactly` | software/SDL_compiler/compiler/vPIFO_trace.cpp:291-306 | reading fails exactly if a push line's number, or for a pop line that of the push line before it or 0, has no flow |
| `TraceLoad.CaptureLoads` | software/SDL_compiler/compiler/vPIFO_trace.cpp:287-326 | for what the tagger printed of a capture no assertion fails, and each flow gets its packets in order and as many credits |
| `TraceLoad.CaptureQualifies` | software/SDL_compiler/compiler/vPIFO_trace.cpp:464 | so the queues meet every condition of the results about runs |
| `TraceLoad.CaptureRun` | software/SDL_compiler/compiler/vPIFO_trace.cpp:464-595 | from any capture, for any locks: all states are safe, no packet departs twice, and each departure is a captured packet with its leaf and rank |
| `TraceLoad.CaptureFifo` | software/SDL_compiler/compiler/vPIFO_trace.cpp:464-595 | from any capture, for any locks: a flow with one leaf and ranks that never decrease departs in capture order |
| `TraceRom.FieldWidth` | software/SDL_compiler/compiler/trace2mem.py:52 | a field has its width exactly when its value fits, and is longer otherwise |
| `TraceRom.RomRoundTrip` | software/SDL_compiler/compiler/trace2mem.py:41-61 | a line is one word of TOTAL_WIDTH digits if and only if its fields fit, and then decodes to the same record |
| `TraceRom.WordIsNumber` | software/SDL_compiler/compiler/trace2mem.py:42-58 | the word as a number: type, tree, meta and the two ranks from the top, padding zero |

## Left out

- The anti-starvation mechanism: `locked[]` is an arbitrary input of every cycle instead.
- The counters `use_num`, `push_sum`, `pop_sum`, `task_num[]`, `send_count`, `wait_time` and `hungry_*` of the scheduler.
- The exit test of the main loop and whether it is met (`Standstill` says when the loop stands still); idle skipping, whose flag is zero throughout.
- The rank and value of a Pop task, uninitialised in the source, are zero here.
- The node array has no fixed size in the model; that it never needs more than `M << L` cells is a result, for runs whose pops are clean.
- 32-bit overflow of ranks, packet numbers and flow sizes.
- Floating point: doubles are reals, the casts to integers are kept; `math.log2` is taken as exact.
- Wfq.Strategy.Top: which of several packets that depart at the same time comes first is left open.
- Pipeline.Pipeline.Run: the batch is any lists of Pushes and Pops instead of one drawn at random.
- Machine.Machine.TryPushPopTask: a packet number missing from the flow map counts as flow 0, as the lookup's default does; the entry the lookup adds is not recorded. A flow map that names a flow without a counter, where the source would index out of bounds, is excluded; `TraceLoad.FlowMapFits` shows that a printed map never does.
- Reading packet captures, flow identifiers from packet headers, time stamps, file names, pretty tables and plots.
- TracePasses.Tagger.TagPriority: ranks come with the captured packet (`StrategyFifo` says which strategy gave them), a packet that goes back in time fails an assertion in the source and is excluded, and the cumulative-pop variant (`CUM_POP` 1) is not modelled.
- The loop that collects ranks from the leaf up to the root: the leaf's rank is tied to the leaf's strategy, ranks of inner nodes are arbitrary.
- TraceText.LineReads: the input is given as blank-separated words; splitting the stream is not modelled.
- TraceRom.RomRoundTrip: splitting a line at commas and colons and filling the ROM with zero words are not modelled.
- AddressTable.WriteTable: the text table for people is not modelled.
- TokenBucket.Conformance: not for rate zero, where the port is not limited, and not past an overflow of 64-bit words or a clock that goes back.
- TokenBucket.TxPort.Transmit: the burst buffer behind the port and the queue-length counters are not modelled.
- Tag payloads are byte sequences; the fixed-size array and its unused tail are not modelled.
- Buffers.BufferStore.Create: the allocator's free list and the recommended start are parameters, and offsets into a block do not overflow 32 bits when a buffer grows.
- TraceLoad.ReadTrace: a push line cut off by the end of the input, which the source completes with words of earlier lines, ends the reading.
- Buffers.BufferStore.AddAtStart: the contents of fresh bytes are whatever memory held, given as a parameter; debug assertions about unused offsets are not modelled.
- Buffers.BufferStore.WriteU8: one byte at a time; multi-byte reads and writes, serialisation and checksums are not modelled.
- Copies of the same code under `software/experiment/tag_priority` and earlier variants of the ring.
- Minimum-bandwidth aggregation, DPDK admission and dispatch, simulator topologies, NixVector and PacketMetadata.
