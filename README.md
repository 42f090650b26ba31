# Netsim factory network model

A Dafny model of Netsim, a discrete-time simulator of a factory network.

- **Ramps** produce packages.
- **Workers** queue packages, process them and pass them on.
- **Storehouses** keep the packages they receive.

Every ramp and worker has a routing table. The table gives each receiver (a worker or a storehouse) a uniform weight. A draw from a probability generator picks the receiver of the next package. Before a run, a depth-first consistency check walks the routing tables from the ramps. Then `simulate` runs turns 1..duration. Each turn has three phases:
1. deliveries;
2. package passing;
3. work.

After the phases comes the report callback.

The model follows the C++ sources file by file:

- storage_types.cpp becomes `StorageTypes`: the `PackageQueue` class over a `seq`, plus the value function `Popped`.
- package.cpp becomes `Packages`: the two static id sets become an `IdAllocator` class, and packages are values.
- nodes.cpp becomes `Routing` and `Nodes`: routing tables, senders, ramps, workers and storehouses are classes, and each step is also a value function.
- factory.hxx and factory.cpp become `Factories`, `Network` and `Consistency`: the node collections and the factory are classes, the network and its per-turn phases are values, and the consistency search is a method over them.
- helpers.cpp becomes `Helpers`: `simulate` and the two report notifiers.

Each state-changing method is proved to produce exactly the state that a value function computes from the state before:
- Each phase loop of the factory is proved against a fold over the nodes in collection order (`Network.DeliveriesUpTo`, `PassingUpTo`, `WorkingUpTo`).
- `simulate` is proved against `Network.RunUpTo`.

The properties of a turn and of a run are proved about those functions:
- Stockpiles only grow.
- Passing loses no package when every table names existing nodes.
- Work loses a package only by overwriting an unsent one.

The consistency search is proved to answer `Consistency.Consistent`. That predicate says every sender reachable from a ramp is "good": its table is non-empty and names a storehouse or a worker other than itself.

How the source's parts are represented:
- **Receivers.** They are named by kind and id instead of by pointer. Routing tables are kept sorted by a fixed order on these names, which replaces address order.
- **Weights.** They are exact reals.
- **The probability generator.** It is a fixed sequence of draws plus a count of the draws taken.
- **The report callback.** It is modelled by the list of turns it is called with.
- **Errors.** A thrown `std::logic_error` becomes an `Err` result carrying the same message.

Behaviour modelled as the code has it, where it differs from what one might expect of such a simulator:
- **Ramp delivery.** A ramp delivers when the C++ remainder `t % di` is 1 (nodes.cpp:73).
  - A ramp with interval 1 therefore never delivers.
  - The new package overwrites an unsent one, which is destroyed and gives its id back.
  - One might expect production at `(t - 1) mod di == 0`, skipped while the slot is full; the code does neither.
- **Worker completion.** A worker finishes a package once `t - start + 1 >= pd` (nodes.cpp:92).
  - The finished package overwrites an unsent one in the sending buffer rather than stalling.
  - One might expect completion at exactly `pd` turns and a stall while the buffer is full; the code does neither.
- **Package passing.** Only workers send (factory.cpp:13-17). A ramp's package stays in its buffer until the next delivery overwrites it.
- **Adding a receiver that is already present.** Every weight is still rescaled to 1/(n + 1) while the table keeps n entries (`Routing.AddPresentReceiver`).
- **Scope of the consistency check.**
  - It starts only from ramps.
  - It accepts any worker receiver other than the sender itself, whatever lies behind that worker.
  - So a cycle of workers that never reaches a storehouse is accepted (`Consistency.CycleWithoutStorehouseAccepted`), although no package it receives can ever be stored.
- **Two definitions of `is_consistent`.** factory.cpp defines it twice. The stub at lines 3-5 returns `true`; the model follows the real definition at lines 71-90.

## Model

| member | source | states |
|---|---|---|
| Types.CppRem | nodes.cpp:73 | the C++ remainder takes the sign of the dividend, is smaller in magnitude than the divisor, and differs from the dividend by a multiple of the divisor |
| Types.CppRemZeroIffDivisible | helpers.cpp:38 | the C++ remainder is zero exactly when the divisor divides the dividend, whatever the signs |
| Types.IndexOfId | factory.hxx:20-28 | `find_if` by id stops at the first node with the id, and at the end exactly when no node has it |
| StorageTypes.PackageQueue.constructor | storage_types.cpp:4-5 | a new queue is empty and has the discipline it was given |
| StorageTypes.PackageQueue.Push | storage_types.cpp:7-9 | the package joins at the back and earlier contents are unchanged |
| StorageTypes.PackageQueue.Pop | storage_types.cpp:11-27 | an empty queue fails with "Queue is empty" and is unchanged; otherwise the result and the remaining contents are those of `Popped` |
| StorageTypes.Popped | storage_types.cpp:11-27 | fails exactly on the empty queue; FIFO takes the front and leaves the tail, LIFO takes the back and leaves the prefix |
| StorageTypes.PopRemovesOne | storage_types.cpp:16-24 | a pop removes exactly one package and loses none (multiset) |
| StorageTypes.DrainFifo | storage_types.cpp:16-21 | a FIFO queue popped until empty yields its packages in push order |
| StorageTypes.DrainLifo | storage_types.cpp:16-24 | a LIFO queue popped until empty yields its packages in reverse push order |
| StorageTypes.ThreePackages | storage_types.cpp:7-27 | pushing P1, P2, P3 and popping three times yields P1, P2, P3 under FIFO and P3, P2, P1 under LIFO |
| StorageTypes.PackageQueue.Size | storage_types.cpp:45-47 | the size is the number of packages iteration visits |
| StorageTypes.PackageQueue.Empty | storage_types.cpp:49-51 | the queue is empty exactly when its size is 0 |
| StorageTypes.PackageQueue.Items | storage_types.cpp:29-43 | iteration visits exactly the stored packages |
| StorageTypes.PackageQueue.QueueKind | storage_types.cpp:53-55 | the queue type is the one fixed at construction |
| Packages.IdAllocator.constructor | package.cpp:3-4 | both id sets start empty |
| Packages.IdAllocator.AcquireId | package.cpp:6-21 | returns `NextId` of the sets before and leaves the sets `Acquired` computes |
| Packages.AcquireReusesSmallestFreed | package.cpp:7-13 | with freed ids, the smallest freed id is returned and moves from the freed set to the assigned set |
| Packages.AcquireExtendsWhenNoneFreed | package.cpp:15-20 | with no freed ids, the result is 1 on an empty assigned set and otherwise the largest assigned id plus 1; it was not assigned before and is assigned afterwards |
| Packages.AcquirePreservesDisjoint | package.cpp:6-21 | disjoint sets stay disjoint, and the id handed out was not assigned |
| Packages.IdAllocator.ReleaseId | package.cpp:23-26 | the id leaves the assigned set and joins the freed set |
| Packages.ReleasePreservesDisjoint | package.cpp:23-26 | releasing keeps the sets disjoint, with the id freed and not assigned |
| Packages.ReuseScenario | package.cpp:6-26 | from empty sets, ids 1 and 2 are handed out; after releasing 1 it is handed out again, and then 3 |
| Packages.IdAllocator.NewPackage | package.cpp:28 | the default constructor makes a package with the acquired id |
| Packages.IdAllocator.NewPackageWithId | package.cpp:30-32 | the explicit-id constructor adds the id to the assigned set and neither consults nor changes the freed set |
| Packages.ExplicitIdCanBreakDisjoint | package.cpp:30-32 | an id that is freed and then given explicitly ends up in both sets |
| Packages.MoveConstructed | package.cpp:34-36 | the new package takes the source's id and the source is left with -1 |
| Packages.MoveTransfersOwnership | package.cpp:34-36 | destroying the moved-to package and the husk releases exactly what destroying the original would; destroying a husk releases nothing |
| Packages.IdAllocator.MoveAssign | package.cpp:38-47 | self-assignment changes nothing; otherwise the target releases its own id unless it is -1, takes the source's id, and the source becomes -1 |
| Packages.IdAllocator.Destroy | package.cpp:53-57 | a package releases its id unless the id is -1 |
| Packages.IdAllocator.DestroyAll | package.cpp:53-57 | destroying a sequence of packages leaves the sets `DisposedAll` computes |
| Packages.DisposedAllReleasesOwned | package.cpp:53-57 | whatever order the destructors run in, exactly the ids the packages own leave the assigned set and join the freed set |
| Routing.ReceiverPreferences.constructor | nodes.cpp:5-6 | a new table is empty |
| Routing.ReceiverPreferences.SetAllWeights | nodes.cpp:15-17 | every entry gets the weight and keeps its receiver, in the same order |
| Routing.ReceiverPreferences.AddReceiver | nodes.cpp:8-19 | the table becomes `Added` of the old table |
| Routing.InsertFacts | nodes.cpp:18 | `emplace` keeps the keys sorted, adds the receiver once, and changes nothing when the key is present |
| Routing.AddNewReceiver | nodes.cpp:8-19 | on an empty table the result is the single entry of weight 1; a new receiver gives n + 1 sorted entries of weight 1/(n + 1), with the old keys plus the new one |
| Routing.AddPresentReceiver | nodes.cpp:14-18 | adding a present receiver keeps n entries but rescales them to 1/(n + 1), so the weights sum to less than 1 |
| Routing.AddKeepsWellFormed | nodes.cpp:8-19 | adding a new receiver to a well-formed table keeps it sorted and uniform, with weights summing to 1 |
| Routing.ReceiverPreferences.IndexOfKey | nodes.cpp:22-23 | `find` returns the position of the receiver's entry, or the end exactly when it is absent |
| Routing.ReceiverPreferences.RemoveReceiver | nodes.cpp:21-33 | the table becomes `Removed` of the old table |
| Routing.EraseFacts | nodes.cpp:25 | `erase` keeps the keys sorted and removes exactly the receiver's key |
| Routing.RemoveReceiverEffect | nodes.cpp:21-33 | an absent receiver changes nothing; a present one loses its key, the other n - 1 entries get 1/(n - 1), and a table of one becomes empty |
| Routing.RemoveKeepsWellFormed | nodes.cpp:21-33 | removal keeps a well-formed table well formed, and a non-empty result sums to 1 |
| Routing.WellFormedSumsToOne | nodes.cpp:8-33 | the weights of a non-empty sorted, uniform table sum to 1 |
| Routing.ProbabilityGenerator.Next | nodes.cpp:36 | a call returns the next draw of the sequence and counts it |
| Routing.FirstReaching | nodes.cpp:39-45 | the scan stops at the first entry whose running total reaches the draw, or at the end if none does |
| Routing.ReceiverPreferences.ChooseReceiver | nodes.cpp:35-49 | the accumulator loop returns `Choose` of the table and the draw |
| Routing.ChooseNothing | nodes.cpp:35-49 | a draw outside [0, 1] or an empty table selects nothing; otherwise some receiver of the table is selected |
| Routing.ChooseUniform | nodes.cpp:35-49 | on a well-formed table of n entries a draw p in [0, 1] selects, without the fallback, the entry i with p * n <= i + 1 and, for i > 0, i < p * n; p = 0 selects the first entry |
| Routing.ChooseFullDraw | nodes.cpp:39-45 | a draw equal to the total weight 1 selects the last entry |
| Nodes.PackageSender.PushPackage | nodes.cpp:53-55 | the buffer holds the new package, and the package it held before is destroyed |
| Nodes.PackageSender.SendPackage | nodes.cpp:57-65 | a draw is taken only for a full buffer; the handover and the new buffer are `SendOutcome` of the table, the buffer and that draw |
| Nodes.SendEffect | nodes.cpp:57-65 | an empty buffer sends nothing; a full one hands its package to the chosen receiver and is emptied, or keeps it when none is chosen; no package is made or lost |
| Nodes.SendAlwaysSucceeds | nodes.cpp:57-65 | with a well-formed non-empty table and a draw in [0, 1], the package always goes to a receiver of the table |
| Nodes.Ramp.constructor | nodes.cpp:69-70 | a ramp starts with its id and interval, an empty buffer and an empty table |
| Nodes.Ramp.DeliverGoods | nodes.cpp:72-76 | buffer and id sets become `Delivered` of the old ones |
| Nodes.DeliveryEffect | nodes.cpp:72-76 | when `t % di == 1` the buffer gets a package whose id was not assigned before, and the replaced package's id ends up freed and not assigned; at any other tick nothing changes |
| Nodes.DeliveryKeepsNewIdAssigned | nodes.cpp:72-76 | after a delivery the new package's id is assigned and the id sets stay disjoint |
| Nodes.DeliverySchedule | nodes.cpp:73 | interval 1 never delivers; interval 2 over ticks 1..5 delivers at 1, 3 and 5 |
| Nodes.DeliveryEveryInterval | nodes.cpp:73 | for positive ticks and intervals of at least 2, a delivery happens exactly at ticks k * di + 1 |
| Nodes.Worker.constructor | nodes.cpp:80-81 | a worker starts idle with tick 0, an empty buffer and an empty table |
| Nodes.Worker.DoWork | nodes.cpp:83-103 | the worker's state and the id sets become `Worked` of the old ones |
| Nodes.TakeNext | nodes.cpp:85-88 | an empty queue leaves the worker as it was; otherwise a package leaves the queue into processing, started at t, with the buffer unchanged |
| Nodes.TakeNextKeepsHeld | nodes.cpp:85-88 | taking the next package keeps the multiset of packages the worker holds |
| Nodes.FinishKeepsHeld | nodes.cpp:92-100 | finishing and taking the next package lose only the package the buffer held |
| Nodes.WorkConserves | nodes.cpp:83-103 | `do_work` adds no package and loses at most one; it loses none and releases no id while the buffer is empty |
| Nodes.WorkScenario | nodes.cpp:83-103 | with processing time 3, a package taken at tick 1 is in progress at ticks 1 and 2 and in the buffer at tick 3 |
| Nodes.WorkOverwritesBuffer | nodes.cpp:92-94 | a finished package replaces an unsent one, whose id is released |
| Nodes.Worker.ReceivePackage | nodes.cpp:105-107 | the package joins the back of the worker's queue |
| Nodes.Storehouse.constructor | nodes.cpp:111-112 | a storehouse keeps its id and the stockpile it is given |
| Nodes.Storehouse.WithDefaultStock | nodes.hxx:112 | the default stockpile is an empty FIFO queue |
| Nodes.Storehouse.ReceivePackage | nodes.cpp:114-116 | the package joins the back of the stockpile |
| Factories.NodeCollection.Add | factory.hxx:18 | the node goes to the back and the earlier nodes keep their order |
| Factories.NodeCollection.Ids | factory.hxx:37-42 | iteration visits the nodes in insertion order, one id per node |
| Factories.NodeCollection.FindById | factory.hxx:20-28 | the result is the first node with the id, or the end when there is none |
| Factories.NodeCollection.RemoveById | factory.hxx:30-35 | only the first node with the id is erased, the rest keep their order, and an absent id changes nothing |
| Factories.Factory.EraseWorker | factory.hxx:30-35 | erasing the first worker with the id keeps the factory valid and removes its configuration and its state together |
| Factories.Factory.EraseStorehouse | factory.hxx:30-35 | erasing the first storehouse with the id removes its id and its stockpile together |
| Factories.Factory.constructor | factory.hxx:81-84 | a factory starts with three empty collections |
| Factories.PurgeTables | factory.hxx:92-93 | each table of the loop forgets the receiver as `remove_receiver` does |
| Factories.Factory.PurgeRampTables | factory.hxx:92 | every ramp's table forgets the receiver; nothing the nodes hold changes |
| Factories.Factory.PurgeWorkerTables | factory.hxx:93 | every worker's table forgets the receiver; nothing the nodes hold changes |
| Factories.Factory.RemoveWorkerNode | factory.hxx:30-35 | the first worker with the id leaves the network with everything it held, and the ids of those packages are given back as their destructors do (`DisposedAll` of `Dropped`) |
| Factories.Factory.RemoveStorehouseNode | factory.hxx:30-35 | the first storehouse with the id leaves with its stockpile, and the ids of the stockpile's packages are given back |
| Factories.Factory.RemoveReceiver | factory.hxx:90-95 | the network becomes `WithoutReceiver` and the node contents `StateWithoutReceiver` of the old ones, and the allocator gives back the ids of the packages the removed node held |
| Network.RemoveFirst | factory.hxx:30-35 | erasing at a position removes one element and adds none; at the end nothing changes |
| Network.Purged | factory.hxx:92-93 | every ramp's and worker's table is the old one without the receiver; the storehouses and the node order are unchanged |
| Network.RemovalPurges | factory.hxx:90-95 | afterwards no table names the removed receiver, every table is still sorted, and a linked network stays linked |
| Network.PurgedRamps | factory.hxx:92 | each remaining ramp table is sorted and names only receivers other than the removed one that some table named before |
| Network.PurgedWorkers | factory.hxx:93 | the same for the remaining workers' tables |
| Network.OthersStillExist | factory.hxx:94 | every node other than the removed one is still found by id |
| Network.RemovalFits | factory.hxx:90-95 | configuration and contents leave together, so every node still has exactly one state |
| Network.RemovalDrops | factory.hxx:94 | what the remaining workers and storehouses hold, together with the packages destroyed with the removed node, is what all of them held before |
| Factories.Factory.DeliverAt | factory.cpp:8-10 | ramp i's `deliver_goods` changes the factory as `DeliverStep` says and leaves the network configuration alone |
| Factories.Factory.AdvanceDeliveries | factory.cpp:8-10 | after one more ramp the factory is at the next element of the delivery trace |
| Factories.Factory.DoDeliveries | factory.cpp:7-11 | the factory and the id sets end as `DeliveriesUpTo` over all ramps computes; the configuration is unchanged |
| Network.DeliveriesEffect | factory.cpp:7-11 | deliveries change only ramp buffers: a ramp with `t % di != 1` keeps its buffer, and every other ramp ends holding a package |
| Factories.Factory.SendFrom | factory.cpp:15 | worker i's `send_package` takes the next draw for a full buffer and yields `SendOutcome` |
| Factories.Factory.HandToWorker | nodes.cpp:105-107 | worker k's queue receives the package and nothing else changes |
| Factories.Factory.HandToStorehouse | nodes.cpp:114-116 | storehouse k's stockpile receives the package and nothing else changes |
| Factories.Factory.HandToWorkerById | nodes.cpp:61 | the handed package reaches the first worker with the receiver's id, as `Receive` says |
| Factories.Factory.HandToStorehouseById | nodes.cpp:61 | the handed package reaches the first storehouse with the receiver's id, as `Receive` says |
| Factories.Factory.PassAt | factory.cpp:14-16 | worker i's sending changes the factory and the draw count as `PassStep` says |
| Factories.Factory.AdvancePassing | factory.cpp:14-16 | after one more worker the factory is at the next element of the passing trace |
| Factories.Factory.DoPackagePassing | factory.cpp:13-17 | on a network whose tables name existing nodes, the factory and the draw count end as `PassingUpTo` over all workers computes; ramps do not send |
| Network.PassingKeepsRampsAndGrowsStocks | factory.cpp:13-17 | passing leaves ramp buffers alone, stockpiles only grow, and each worker takes at most one draw |
| Network.ReceiveAdds | nodes.cpp:105-116 | a package received by an existing node is added to what the workers and storehouses hold |
| Network.HandoverConserves | nodes.cpp:58-63 | a package leaving a buffer for an existing node keeps the downstream total |
| Network.SendStepConserves | nodes.cpp:57-65 | on a linked network one worker's sending keeps the downstream total, whatever the draw |
| Network.PassingConserves | factory.cpp:13-17 | on a linked network passing neither loses nor makes a package |
| Factories.Factory.WorkAt | factory.cpp:20-22 | worker i's `do_work` changes the factory and the id sets as `WorkStep` says |
| Factories.Factory.AdvanceWorking | factory.cpp:20-22 | after one more worker the factory is at the next element of the work trace |
| Factories.Factory.DoWork | factory.cpp:19-23 | the factory and the id sets end as `WorkingUpTo` over all workers computes |
| Network.WorkStepEffect | factory.cpp:21 | one worker's work touches only that worker, loses at most what it overwrites, and loses nothing while its buffer is empty |
| Network.WorkingKeepsOthers | factory.cpp:19-23 | working leaves ramp buffers, stockpiles and the later workers alone |
| Network.WorkingLoses | factory.cpp:19-23 | working makes no package |
| Network.WorkingConserves | factory.cpp:19-23 | with every buffer empty, working loses no package |
| Consistency.HasReachableStorehouse | factory.cpp:26-69 | a failure means the network is inconsistent; success leaves the sender verified, marks no new sender in progress, and keeps the meaning of the colours |
| Consistency.IsConsistent | factory.cpp:71-90 | the answer is true exactly when every sender reachable from a ramp is good |
| Factories.Factory.IsConsistent | factory.cpp:71-90 | the answer is `Consistent` of the factory's network, and the factory is unchanged |
| Consistency.ClosedImpliesConsistent | factory.cpp:81-89 | once every ramp is verified and no sender is still mid-visit, every sender reachable from a ramp is good |
| Consistency.NoRampsConsistent | factory.cpp:82-84 | without ramps the check succeeds |
| Consistency.SelfLoopRejected | factory.cpp:43-66 | a worker whose only receiver is itself makes the network inconsistent |
| Consistency.CycleWithoutStorehouseAccepted | factory.cpp:54-58 | two workers sending only to each other, with no storehouse, pass the check |
| Helpers.SpecificTurnsReported | helpers.cpp:28-30 | over turns 1..duration, a specific-turns notifier reports exactly at the configured turns in that range |
| Helpers.SpecificTurnsShouldReport | helpers.cpp:28-30 | a specific-turns notifier reports exactly at the configured turns |
| Helpers.IntervalShouldReport | helpers.cpp:37-39 | an interval notifier reports exactly when abs(interval) divides t - 1, turns before the first included |
| Helpers.IntervalReportsAt | helpers.cpp:37-39 | from turn 1 on, an interval notifier reports exactly at turns 1 + j * abs(interval) |
| Helpers.IntervalPeriodic | helpers.cpp:37-39 | the reporting pattern repeats with period abs(interval) |
| Helpers.IntervalOneEveryTurn | helpers.cpp:38 | an interval of 1 or -1 reports every turn |
| Helpers.IntervalFirstTurn | helpers.cpp:38 | every interval reports turn 1 |
| Helpers.Turns | helpers.cpp:52 | the turns 1..n in ascending order, none when n <= 0 |
| Helpers.TickAt | helpers.cpp:53-55 | the three phases in order take the factory through one `Tick` |
| Helpers.AdvanceRun | helpers.cpp:52-58 | after turn t the factory is at element t of the run's trace |
| Helpers.RunLoop | helpers.cpp:52-58 | the loop visits turns 1..duration in order and leaves the factory, the id sets and the draw count at the last element of the run's trace |
| Helpers.RunTurns | helpers.cpp:52-58 | the callback sees turns 1..duration in order, and the factory, the id sets and the draw count end as `RunUpTo` computes |
| Helpers.Simulate | helpers.cpp:43-59 | fails exactly when the network is inconsistent, with "Factory network is inconsistent" and before any turn, so nothing changes; otherwise the callback sees turns 1..duration and the factory ends as `RunUpTo` computes |
| Network.TickGrowsStocks | helpers.cpp:53-55 | a turn never takes a package out of a stockpile |
| Network.RunGrowsStocks | helpers.cpp:52-58 | over a whole run a storehouse keeps every package it received, in order |
| Network.TickDraws | helpers.cpp:53-55 | a turn takes at most one draw per worker and none for a ramp |

## Left out

- Pointer identity and `dynamic_cast`. Receivers are named by kind and id, and a table entry is resolved with `find_by_id`, so of several nodes with the same id the first is meant. Routing tables are ordered by kind and id, not by address, so the order `choose_receiver` scans in differs from the source's address order.
- Floating-point rounding of weights and running totals: weights are exact reals. The rounding fallback of `choose_receiver` (nodes.cpp:47) is kept but is unreachable on well-formed tables.
- The pseudo-random generator at helpers.cpp:12-20: the draws are a parameter, a function from the draw count to a real.
- 32-bit `int` overflow of ids, ticks and intervals: integers are unbounded.
- The ramp's tick field `t_` (nodes.cpp:70), which the ramp never reads. The worker's `t_` is modelled as its `start` field.
- Package objects: packages are values, so two packages with the same id are indistinguishable; `MoveAssign` is told whether its operands are the same object.
- Packages.IdAllocator.MoveAssign: requires that operands said to be one object are equal, which is how the source's address test can only succeed.
- Nodes.Ramp.DeliverGoods: requires a non-zero interval, because `current % 0` is undefined in C++; the network-level phases require the same of every ramp (`Network.IntervalsNonZero`).
- Helpers.Simulate: requires non-zero intervals even when the factory is inconsistent or the duration is not positive, cases in which the source never takes a remainder.
- Factories.Factory.IsConsistent: requires every routing table to name existing nodes (`Network.Linked`). A dangling pointer in the source is undefined behaviour. The passing phase and the run (`Factories.Factory.DoPackagePassing`, `Helpers.TickAt`, `Helpers.RunTurns`) require the same. Under that requirement, the branch of `Network.Receive` that hands a package to a missing node, and so loses it, is never taken.
- Factories.Factory.RemoveReceiver: when no node has the id, the source dereferences the end iterator (undefined behaviour). The model purges the receiver from every table anyway and removes no node.
- Factory operations declared in factory.hxx but not defined in the sources (`add_ramp`, `remove_*`, `find_*_by_id`, the iteration accessors): only `NodeCollection`'s operations are modelled.
- The stub `is_consistent` at factory.cpp:3-5, which a second definition replaces.
- Report output (reports.cpp), the demo wiring (main.cpp) and `to_string` (types.hxx): I/O and formatting. The report callback is modelled as the list of turns it is called with, so it cannot change the factory.
- The shared colour map of the consistency search is passed in and returned as a value rather than modified through a reference, and its exceptions are `Err` results.
