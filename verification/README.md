# ShipInfer, modelled and proved

ShipInfer serves detection, segmentation and embedding models to a fleet of cameras. This project
models the parts of it whose correctness no finite set of tests settles, and proves what they promise:

- **The fair priority queue** (`Lane.dfy`, `FairQueue.dfy`, `FairQueueRuns.dfy`, `FairService.dfy`,
  `FairQueueObject.dfy`): per-camera FIFOs served round-robin inside priority bands, overflow policies,
  row-bounded batches and loss counters, as values, as runs of operations, and as the objects that are
  mutated; and exactly which configurations share turns, and what is served, fairly.
- **Shard planning** (`Sharding.dfy`, `ShardPlans.dfy`, `UnevenSharding.dfy`, `UnevenWitnesses.dfy`): GPUs
  dealt to processes, a fleet ranked and balanced largest first, the 4/3 bound of
  longest-processing-time-first, and what holds where GPUs and shards do not divide.
- **The host-CPU sampler** (`HostCpu.dfy`, `HostCpuExact.dfy`, `ProcessTree.dfy`, `Reachability.dfy`): one tick
  per snapshot of `/proc`, tids that are reused, generators declared late, and the exact table and total
  that any run of ticks leaves.
- **The parity trace and differ** (`Json.dfy`, `Trace.dfy`, `Differ.dfy`): a printer and parser for the
  canonical line, a deterministic file, equality modulo interleaving and a register of divergences.
- **The offline build** (`OfflineBuild.dfy`): include closure by worklist and a complete link line.
- **The measurement layer** (`Growth.dfy`, `TCritical.dfy`, `GrowthFit.dfy`, `Histogram.dfy`, `Ratio.dfy`, `Shards.dfy`):
  the growth estimator and its interval, cumulative histograms differenced over time, the claim a pair of
  numbers supports, the sweep, and what shard summaries add up to.
- **Machinery** (`Option.dfy` and `Sequences.dfy` aside): all-or-nothing engine install (`EngineInstall.dfy`), selection of a rank in place
  (`Percentile.dfy`), the shell segment splitter and wrapper stripper (`Segments.dfy`), buffer ownership
  (`Buffers.dfy`), first-seen labels (`Labels.dfy`), the calibration set (`Calibration.dfy`).

Code that changes state step by step is a class or a method with loops, proved equal to a function of
its inputs or old state; the lemmas are about that function. `dafny verify dfyconfig.toml` checks
everything. Floating point is modelled over the reals, clocks and files are parameters, and a concurrent
operation is one step.

## Where the code and its documentation disagree

The model follows the code. For each, a lemma shows the disagreement and another says when the
documented statement does hold.

- `fair.py:163-164` says that BACKGROUND work can never displace TRACKING_CRITICAL work. It does when
  everything queued is more urgent than the arrival, and only then (`DisplacesMoreUrgentIff`,
  `BackgroundDisplacesCritical`).
- `base.py:140-146` says that an empty batch means a closed queue. An open queue answers one exactly when
  everything queued has expired (`EmptyBatchIffAllStale`, `OpenQueueAnswersEmptyBatch`).
- `fair.py:29-37` says that draining cameras round-robin keeps a crowded one from starving a quiet one.
  Turns are shared so exactly unless DROP_OLDEST may evict a camera's only item (`FairTurnsIff`,
  `EvictionStarves`). What is served is shared so exactly when moreover a turn is never spent on an expired
  item; with the default REJECT and `drop_expired` it can be (`FairSharesIff`, `ExpiryStarves`), and then
  a loud camera's lead is at most the quiet one's expired items and one (`LoudCameraCannotStarveQuiet`).
- `sharding.py:215-219` says that the balance is within 4/3 of optimal. It is when shards divide over GPUs
  or GPUs over shards (`PlanWithinFourThirds`, `FleetWithinFourThirds`), and when there are at least three
  GPUs to a shard and at least shards squared of them (`SquareWithinFourThirds`). It is not when the GPUs
  number strictly between the shards and twice the shards (`FewShardsBreakFourThirds`), when the shards
  number strictly between the GPUs and three times the GPUs without dividing evenly
  (`UnevenSharingBreaksFourThirds`), and on some plans beyond those (`SevenOnTwenty`, `TenOnThree`).
  With at least twice as many of the one as of the other, 3/2 always holds and is attained
  (`PlanWithinThirdOfLargest`, `ThreeHalvesAttained`); `WithinCapacityRatio` holds for any capacities.
- `sharding.py:233-236` refuses plans with more shards than cameras so that no shard is idle; a shard can
  still be left idle, exactly when two of the heaviest cameras offer no load (`EveryShardGetsACameraIff`).
- `analysis.py:280-281` says that the mean difference is algebraically the endpoint slope. It is exactly
  on equally spaced samples (`EndpointIffUniform`).
- `analysis.py:334-337` says that too few samples give SUSTAINED; they give UNMEASURED (`UnmeasuredIff`).
- `shards.py:222-226` says that one saturated shard makes the fleet's number a capacity exactly as one
  saturated module makes a process's. The two differ when another shard is unmeasured
  (`FleetAgreesWithProcess`), and beside shards that merely kept up the sum is only a floor
  (`FleetSoundIff`, reading a fleet's capacity as the sum of its shards').

## Model

| member | source | states |
|---|---|---|
| Lanes.RoundRobinFair | src/shipinfer/scheduling/queues/lanes.py:27-76 | over any run of pushes, pops and evictions from any lane, while a camera stays backlogged no other camera gets more than one turn more than it, and only if it started ahead |
| Lanes.BackloggedKeysShareEvenly | src/shipinfer/scheduling/queues/lanes.py:27-45 | two cameras that both stay backlogged are served within one turn of each other |
| Lanes.BoundedWait | src/shipinfer/scheduling/queues/lanes.py:36-45 | no starvation: with at most n active cameras a backlogged one gets a turn in every n |
| Lanes.FirstInFirstOut | src/shipinfer/scheduling/queues/lanes.py:27-76 | per camera, what left followed by what is queued is what was queued followed by what was pushed, over any run |
| Lanes.EvictionChargesTheGreedy | src/shipinfer/scheduling/queues/lanes.py:59-76 | eviction takes from a camera holding at least its fair share; a camera shorter than some other never loses an item |
| Lanes.PushItems | src/shipinfer/scheduling/queues/lanes.py:27-34 | a push adds exactly its item to the lane's contents |
| Lanes.PopItems | src/shipinfer/scheduling/queues/lanes.py:36-45 | a pop removes exactly the item peeked |
| Lanes.EvictItems | src/shipinfer/scheduling/queues/lanes.py:59-76 | an eviction removes exactly the oldest item of the longest camera |
| Lanes.OneBucketPerCamera | src/shipinfer/scheduling/work.py:25-35 | two queued items wait in one bucket exactly when they are of one camera or neither has one of its own |
| LaneObjects.Lane.Push | src/shipinfer/scheduling/queues/lanes.py:27-34 | the object's new value is the lane with the item pushed |
| LaneObjects.Lane.Pop | src/shipinfer/scheduling/queues/lanes.py:36-45 | the object's new value and the item handed out are those of the lane's pop |
| LaneObjects.Lane.Peek | src/shipinfer/scheduling/queues/lanes.py:47-57 | peeking changes nothing and answers the item the next pop takes, or nothing |
| LaneObjects.Lane.EvictFromLongest | src/shipinfer/scheduling/queues/lanes.py:59-76 | the new value and the victim are those of the lane's eviction; an empty lane is left alone |
| LaneObjects.Lane.Drain | src/shipinfer/scheduling/queues/lanes.py:88-93 | everything queued is handed back, camera by camera in dictionary order and each camera's oldest first, and the lane is empty |
| FairQueues.DrainConserves | src/shipinfer/scheduling/queues/fair.py:216-267 | a drain neither loses nor duplicates an item; where expired items are dropped it serves none whose deadline has passed, and it discards no other |
| FairQueues.DrainFitsBudget | src/shipinfer/scheduling/queues/fair.py:216-229 | the batch sizes of a batch, a request without inputs counted as one row, add up to more than the budget only as one item whose own batch size does |
| FairQueues.RowsAreInputs | src/shipinfer/scheduling/queues/fair.py:239-241 | the rows charged for any items are their inputs and one for each item without any |
| FairQueues.DrainIsMaximal | src/shipinfer/scheduling/queues/fair.py:216-267 | a drain stops only with the queue empty, the budget spent on inputs, or before an item whose own batch size does not fit |
| FairQueues.EmptyBatchIffAllStale | src/shipinfer/scheduling/queues/fair.py:216-267 | a drain's batch is empty exactly when everything queued has expired |
| FairQueueRuns.EveryRunBalances | src/shipinfer/scheduling/queues/fair.py:124-287 | over every run each accepted item is queued or left by exactly one door, totals and per-camera counters say by which, and the depth never passes the capacity |
| FairQueueRuns.LossesAreAttributed | src/shipinfer/scheduling/queues/fair.py:124-267 | over any run of a new queue the counters of refused, evicted and expired items hold, for every camera, how many of those were its own |
| FairQueueRuns.PutIff | src/shipinfer/scheduling/queues/fair.py:124-177 | a put is taken for nothing exactly while an open queue is below its capacity, refused exactly when it is at it and may not drop, and otherwise taken for one queued item; the contents follow |
| FairQueueRuns.StepPlaced | src/shipinfer/scheduling/queues/fair.py:124-287 | every operation keeps each item in the lane of its own priority |
| FairQueueRuns.DrainByPriority | src/shipinfer/scheduling/queues/fair.py:216-267 | nothing is served while a more urgent item stays behind |
| FairQueueRuns.DisplacesMoreUrgentIff | src/shipinfer/scheduling/queues/fair.py:149-177 | an overflowing put evicts one of the least urgent items queued, and that victim is more urgent than the arrival exactly when everything queued is |
| FairQueueRuns.BackgroundDisplacesCritical | src/shipinfer/scheduling/queues/fair.py:149-177 | a concrete queue in which a background item displaces a tracking-critical one, against the comment at lines 163-164 |
| FairQueueRuns.OpenQueueAnswersEmptyBatch | src/shipinfer/scheduling/queues/base.py:140-146 | a concrete open queue that answers an empty batch, against the promise that only a closed one does |
| FairQueueRuns.StepProjects | src/shipinfer/scheduling/queues/fair.py:124-267 | each lane of the queue undergoes a run of lane operations, which carries the lane's fairness to the queue |
| FairQueueRuns.CameraFairness | src/shipinfer/scheduling/queues/fair.py:26-47 | under any overflow policy, while a camera keeps its place in a band no other gets more than one turn of that band more than it |
| FairQueueRuns.LoudCameraCannotStarveQuiet | src/shipinfer/scheduling/queues/fair.py:26-47 | the queue's purpose: under REJECT or BLOCK, over every window in which a camera always has something queued in a band, no other gets more than one turn of the band more, and none is served more than one item more than this one was served and let expire |
| FairService.FairTurnsIff | src/shipinfer/scheduling/queues/fair.py:26-47 | turns are shared within one over every window of a queue within its capacity exactly unless the policy is DROP_OLDEST with two slots or more |
| FairService.FairSharesIff | src/shipinfer/scheduling/queues/fair.py:216-267 | so is what is actually served exactly when moreover expired items are kept or there are at most two slots |
| FairService.EvictionStarves | src/shipinfer/scheduling/queues/fair.py:149-177 | under DROP_OLDEST with two slots or more, a run of any length from a queue filled by puts in which a camera queued throughout gets no turn and another is served once a round |
| FairService.ExpiryStarves | src/shipinfer/scheduling/queues/fair.py:241-251 | where expired items are dropped and there are three slots or more, such a run in which the camera queued throughout is served nothing because its turns go to expired items |
| FairQueueObjects.FairPriorityQueue.constructor | src/shipinfer/scheduling/queues/fair.py:49-81 | an empty open queue of the configured capacity |
| FairQueueObjects.FairPriorityQueue.MakeRoom | src/shipinfer/scheduling/queues/fair.py:149-177 | the object's state after making room is the specified one, by policy |
| FairQueueObjects.FairPriorityQueue.Put | src/shipinfer/scheduling/queues/fair.py:124-147 | outcome and whole new state of a put, counters included |
| FairQueueObjects.FairPriorityQueue.DrainLocked | src/shipinfer/scheduling/queues/fair.py:216-267 | the batch and the whole new state of a drain, computed lane by lane, are those of the cut schedule, and the batch's inputs fit the budget unless it is one item too large |
| FairQueueObjects.FairPriorityQueue.Close | src/shipinfer/scheduling/queues/fair.py:271-287 | the queue is closed and empty and hands back exactly what it held, most urgent band first and camera by camera |
| Sharding.WithinFourThirds | src/shipinfer/scheduling/sharding.py:215-219 | largest-first greedy assignment is within 4/3 - 1/(3m) of every other assignment when all shards have one capacity |
| Sharding.PlanWithinFourThirds | src/shipinfer/scheduling/sharding.py:200-293 | the plan meets that bound whenever shards divide over GPUs or GPUs over shards |
| Sharding.UnevenSharingBreaksFourThirds | src/shipinfer/scheduling/sharding.py:215-219 | for every uneven sharing with more than one and fewer than three shards per GPU, a fleet on which the plan misses the documented 4/3 |
| UnevenSharding.FewShardsBreakFourThirds | src/shipinfer/scheduling/sharding.py:215-219 | for every count of GPUs strictly between the shards and twice the shards, a fleet on which the plan misses it |
| UnevenSharding.WithinThirdOfLargest | src/shipinfer/scheduling/sharding.py:274-281 | largest first over capacities of which none is below two thirds of the largest: no shard carries more than any other assignment's bound for it and a third of that assignment's bound for the largest |
| UnevenSharding.PlanWithinThirdOfLargest | src/shipinfer/scheduling/sharding.py:200-293 | the plan meets that, and so 3/2, whenever there are twice as many shards as GPUs or GPUs as shards, or more, even or not |
| UnevenSharding.ThreeHalvesAttained | src/shipinfer/scheduling/sharding.py:215-219 | the 3/2 is attained for every count of shards strictly between twice and three times the GPUs |
| UnevenSharding.SquareWithinFourThirds | src/shipinfer/scheduling/sharding.py:200-293 | with at least three GPUs to a shard and at least shards squared of them the 4/3 holds, even or not |
| UnevenWitnesses.SevenOnTwenty | src/shipinfer/scheduling/sharding.py:215-219 | seven shards on twenty GPUs: a fleet of eighteen cameras on which the plan misses 4/3 |
| UnevenWitnesses.TenOnThree | src/shipinfer/scheduling/sharding.py:215-219 | ten shards on three GPUs: a fleet of twenty cameras on which it does |
| Sharding.WithinCapacityRatio | src/shipinfer/scheduling/sharding.py:274-281 | for any capacities, no shard carries more than any other plan's bound for it plus that plan's bound for the largest |
| Sharding.WeightsConserve | src/shipinfer/scheduling/sharding.py:274-281 | the shards' weights add up to the fleet's load |
| Sharding.EveryShardGetsACameraIff | src/shipinfer/scheduling/sharding.py:233-247 | with enough cameras, no shard is left without one exactly when all but one of the m heaviest offer any load |
| Sharding.EveryDeviceOwned | src/shipinfer/scheduling/sharding.py:257-271 | no device is idle, and how many shards own each |
| Sharding.CapacityValue | src/shipinfer/scheduling/sharding.py:272-272 | a shard's capacity in closed form: its devices, or its part of a shared one |
| Sharding.LightestShard | src/shipinfer/scheduling/sharding.py:279-279 | the first shard of least load per unit of capacity |
| Sharding.Balance | src/shipinfer/scheduling/sharding.py:274-281 | buckets and weights of the loop are those of the greedy assignment |
| ShardPlans.RankedSorts | src/shipinfer/scheduling/sharding.py:276-278 | the ranking holds every camera once, heaviest first and ties by name |
| ShardPlans.RankedIgnoresOrder | src/shipinfer/scheduling/sharding.py:221-223 | the ranking is the same for every order the fleet is given in |
| ShardPlans.FromNames | src/shipinfer/scheduling/sharding.py:238-238 | a list of ids is a fleet of each of them once, all of load one |
| ShardPlans.PlanShards | src/shipinfer/scheduling/sharding.py:200-293 | the loops compute the specified plan: each refusal when it is due, in order, and otherwise the ranked greedy plan with sorted cameras and devices, each shard offering what the cameras it lists offer |
| ShardPlans.PlanIgnoresOrder | src/shipinfer/scheduling/sharding.py:221-223 | the plan is deterministic: it depends only on which cameras offer what |
| ShardPlans.BucketExactly | src/shipinfer/scheduling/sharding.py:282-288 | a shard lists exactly the cameras assigned to it, ascending |
| ShardPlans.EveryCameraPlanned | src/shipinfer/scheduling/sharding.py:110-113 | every camera of the fleet is listed by exactly one shard, and nothing else is |
| ShardPlans.OfferedIsListed | src/shipinfer/scheduling/sharding.py:278-288 | the load reported for a shard is the sum of the loads of the cameras whose names it lists |
| ShardPlans.FleetWithinFourThirds | src/shipinfer/scheduling/sharding.py:215-219 | for a fleet in any order, against any other placing of its cameras by name, the cameras a shard lists offer together no more than 4/3 - 1/(3m) of that placing's busiest whenever shards divide over GPUs or GPUs over shards |
| ProcessTree.Walk | scripts/host_cpu.py:118-146 | the walk terminates and returns, each once, exactly the processes reachable from the root by paths that avoid the skipped ones |
| ProcessTree.DescendsIsLeast | scripts/host_cpu.py:118-146 | what the walk is to find, by the listed children alone: the least set with the root and every child that is not skipped |
| HostCpu.TotalIsALowerBound | scripts/host_cpu.py:161-168 | over every run of ticks in which each thread's counter only grows, the total never exceeds what the threads seen have used, recycled tids and forgotten generators included |
| HostCpu.TotalNeverDecreases | scripts/host_cpu.py:229-257 | a tick that forgets no row never lowers the total |
| HostCpu.NoGeneratorRows | scripts/host_cpu.py:214-269 | after every run no row, live or retired, belongs to a generator ever read or to a process ever seen alive under one, unreadable pid files included |
| HostCpu.DeclaredIsGenerator | scripts/host_cpu.py:214-227 | whatever a tick reads as declared counts as a generator from then on |
| HostCpuExact.RowsByReadings | scripts/host_cpu.py:229-269 | the whole table after any run, by the readings alone: a tid has a row exactly when its last reading is not of a process ever under a generator, and the row is that reading; the retired rows are, in order and with pid, name and CPU, the readings that the next of their tid fell below, without those processes; so forgetting late is as if the generators had been known from the start |
| HostCpuExact.TotalByReadings | scripts/host_cpu.py:229-307 | the total after any run is the sum of the readings that are the last of their tid or that its next reading fell below, without those of a process ever under a generator |
| HostCpuExact.TotalCoversLast | scripts/host_cpu.py:229-307 | the total is at least the sum of the last reading of every tid, generators aside, and equal to it exactly when no such reading was followed by a lower one of its tid |
| HostCpuExact.GeneratorsCharged | scripts/host_cpu.py:243-246 | a generator is charged the highest lifetime CPU any tick read while it was declared, and nothing else is charged |
| HostCpu.ClassesAddUp | scripts/host_cpu.py:280-307 | before rounding, the classes of the breakdown add up to the total |
| HostCpu.ThreadSampler.constructor | scripts/host_cpu.py:172-193 | a sampler that has seen nothing |
| HostCpu.ThreadSampler.Sample | scripts/host_cpu.py:229-257 | one tick leaves the state the specification's tick gives on the tree it walked; `RowsByReadings` says what rows those ticks leave |
| HostCpu.ThreadSampler.Drop | scripts/host_cpu.py:259-269 | forgetting drops exactly the live and retired rows of those processes |
| HostCpu.ThreadSampler.Record | scripts/host_cpu.py:250-257 | the tid has the row of this reading, and a higher row it takes the place of is retired |
| HostCpu.ThreadSampler.AllLines | scripts/host_cpu.py:275-278 | the rows are each live thread once with its name and highest reading, then the retired ones in order, and their sum is the total |
| HostCpu.ByClass | scripts/host_cpu.py:280-290 | CPU and thread count of every class present, and no other class |
| HostCpu.ClassIsItsCarriers | scripts/host_cpu.py:280-290 | a class has the CPU and the number of the lines whose thread is of it |
| HostCpu.ThreadClassIs | scripts/host_cpu.py:149-158 | the class is the name before the first dash, or the whole name where there is no dash or nothing after it |
| Json.ParsePrint | benchmarks/parity/trace.py:98-108 | parsing a printed plain value gives it back, whatever follows |
| Json.LoadsPrint | benchmarks/parity/trace.py:98-108 | a printed line loads as its value with nothing left over |
| Traces.LineRoundTrip | benchmarks/parity/trace.py:98-108 | the reader returns exactly the record the writer accepted |
| Traces.ToLineInjective | benchmarks/parity/trace.py:98-108 | two accepted records with one line are one record |
| Traces.InterleavingIsInvisible | benchmarks/parity/trace.py:218-228 | the file depends only on each camera's own sequence and the fleet's, never on the interleaving |
| Traces.OrderedKeepsEveryCamera | benchmarks/parity/trace.py:218-228 | ordering the file changes no camera's sequence |
| Traces.FileReadsBack | benchmarks/parity/trace.py:256-306 | reading the emitted file gives its header and ordered records, so every camera's sequence survives |
| Traces.ParseLines | benchmarks/parity/trace.py:256-306 | the loop's answer is the specified reading: blank lines dropped, the first bad line decides, and every record read has its kind's shape |
| Traces.ReadIsRight | benchmarks/parity/trace.py:281-291 | no text is read as a record with more or fewer numbers or words than its kind has |
| Traces.TraceWriter.Declare | benchmarks/parity/trace.py:163-172 | the header is set once, from plain words, or refused with nothing changed |
| Traces.TraceWriter.Add | benchmarks/parity/trace.py:174-216 | a record is appended exactly when it is acceptable and refused with nothing changed; a fleet kind with a camera or another without one breaks the camera rule |
| Traces.TraceWriter.Lines | benchmarks/parity/trace.py:218-228 | the loops' file reads back as the declared header and every camera's records exactly as they were added; it is refused under another schema, and without a header there is none |
| Traces.OtherSchemaIsRefused | benchmarks/parity/trace.py:266-271 | a file declared under another schema is refused by the reader whatever it holds |
| Traces.ByCamera | benchmarks/parity/diff.py:75-80 | exactly the cameras with records, each with its own sequence |
| TraceTable.FieldsArePlain | benchmarks/parity/trace.py:43-82 | the shipped table of kinds is one the round trip holds for |
| TraceTable.FieldNamesDistinct | benchmarks/parity/trace.py:43-82 | no kind names one field twice, so a field name picks one position |
| Differ.DifferingFields | benchmarks/parity/trace.py:309-323 | `kind` alone when kinds differ, `camera` alone when cameras do, and otherwise exactly the named fields whose values differ, none exactly for equal records |
| Differ.FirstEntry | benchmarks/parity/diff.py:83-104 | the first register entry that explains the pair on that field |
| Differ.Explain | benchmarks/parity/diff.py:83-104 | the first explaining entry of each differing field, each once and sorted, exactly when every field has one |
| Differ.AgreeIff | benchmarks/parity/diff.py:83-104 | two records agree exactly when they are equal or, across planes, every field they differ on has a register entry of that very kind and field whose test they pass; an entry for another field excuses nothing |
| Differ.CompareCamera | benchmarks/parity/diff.py:125-155 | the first dispute of a camera, or where the shorter sequence ends, with both sides' records, none exactly when the sequences agree, and every place excused before it with its entries and fields |
| Differ.ExcusesExactly | benchmarks/parity/diff.py:125-155 | the excused places are, in order, exactly the unequal records before the dispute, each with the fields that differ and the first register entry deciding each, asked about the Python record first |
| Differ.Compare | benchmarks/parity/diff.py:107-156 | the whole report: over the cameras of either trace in order, each one's difference and excused places; so it names once each exactly the cameras that disagree, and two scenarios are never compared |
| Differ.SamePlaneOkIff | benchmarks/parity/diff.py:107-156 | on one plane a camera passes exactly when its two sequences are identical |
| Differ.VerdictIsSymmetric | benchmarks/parity/diff.py:107-156 | with exactly one Python trace the verdict does not depend on the order of the arguments |
| Differ.WithoutPythonOrderMatters | benchmarks/parity/diff.py:107-156 | for any two different planes neither of which is Python, two traces and a register whose verdict changes with their order |
| Differ.OrderIsNothingIff | benchmarks/parity/diff.py:107-156 | the order of two traces is nothing under every register exactly when they are of one plane or exactly one is Python's |
| Differ.FileComparesEqual | benchmarks/parity/diff.py:107-156 | a trace passes against its own file |
| OfflineBuild.IncludeClosure | scripts/build_csrc.py:326-344 | the worklist terminates with exactly the existing files the app reaches |
| OfflineBuild.ClosuresNest | scripts/build_csrc.py:326-344 | what a reached unit reaches, its app reaches |
| OfflineBuild.LanesIn | scripts/build_csrc.py:357-372 | exactly the lanes that declare a unit of the closure |
| OfflineBuild.OfflineBuildOf | scripts/build_csrc.py:467-480 | apps, compiled units and link line of the loops are the specified plan, or the refusal |
| OfflineBuild.BuiltIff | scripts/build_csrc.py:467-480 | the entry points that reach no driver header and no unit of a lane nobody asked for are built, all of them and no other; so are the package's other units compiled; and nothing is built exactly when there is no such entry point |
| OfflineBuild.OfflineLinkIsComplete | scripts/build_csrc.py:533-537 | every package unit a built app reaches, and that is no built app, is offline-ready, compiled and on the link line |
| OfflineBuild.OfflineNeedsNothingInstalled | scripts/build_csrc.py:635-645 | nothing built or compiled reaches the driver's headers or a library nobody asked for, and only enabled libraries are linked |
| Growth.FitShifts | benchmarks/harness/analysis.py:327-377 | adding any line to a series shifts both slopes by its slope exactly and leaves the interval's width and `linear` as they were |
| Growth.ExactLine | benchmarks/harness/analysis.py:301-377 | on an exact line of three samples or more both slopes are the line's, the interval is a point and the verdict is the slope's sign |
| Growth.UniformIsEndpoint | benchmarks/harness/analysis.py:352-361 | on equal spacing the mean difference is the endpoint slope |
| Growth.EndpointIffUniform | benchmarks/harness/analysis.py:278-285 | it is the endpoint slope for all values exactly when the spacing is equal, against the unconditional comment at lines 280-281 |
| Growth.OlsIsLeastSquares | benchmarks/harness/analysis.py:370-375 | the OLS slope minimises the squared residuals over all lines, and no other slope does |
| Growth.VerdictIsByInterval | benchmarks/harness/analysis.py:292-324 | the verdict and `linear` are what the interval's ends decide |
| Growth.WidthIsPairwise | benchmarks/harness/analysis.py:362-368 | the width by the differences alone: n^2 (n - 1) times the squared half-width is the squared critical value times the squared distances of all pairs of differences |
| Growth.VerdictIsByPairs | benchmarks/harness/analysis.py:300-368 | the verdict with no mean, variance or root: the sign of the sum of the differences when (n - 1) times its square exceeds the squared critical value times those distances, and sustained otherwise |
| Growth.UnmeasuredIff | benchmarks/harness/analysis.py:300-307 | the verdict is UNMEASURED exactly with fewer than two forward steps, so never SUSTAINED for one or two samples, against the docstring at lines 334-337 |
| GrowthFit.CautiousVerdict | benchmarks/harness/analysis.py:362-368 | over the Student-t values the harness uses, the interval contains the normal one, so it says saturated or draining only where the normal interval does and sustained wherever that does |
| GrowthFit.VerdictByPairs | benchmarks/harness/analysis.py:362-368 | the same over the Student-t value of n - 1 degrees of freedom, which is what the harness reports |
| TCritical.CriticalFalls | benchmarks/harness/analysis.py:162-174 | over all positive degrees of freedom the critical value strictly falls and stays above 1.960, across table, interpolation and tail |
| TCritical.TabulatedExactly | benchmarks/harness/analysis.py:123-159 | every tabulated value is returned as it stands |
| Histograms.ReadingsDifference | benchmarks/harness/histograms.py:71-87 | for any stream cut anywhere, and any label set or all, the reading at the end minus the one at the cut is the reading of the suffix, and is never refused |
| Histograms.WindowIsTheSuffix | benchmarks/harness/histograms.py:71-87 | the same for the cell of any values |
| Histograms.BackwardsIsRefused | benchmarks/harness/histograms.py:71-87 | the difference the wrong way round is refused as soon as anything was observed between |
| Histograms.TotalIsSumOfCells | benchmarks/harness/histograms.py:99-107 | the fleet's reading is the pointwise sum of the label sets' readings, in any order |
| Histograms.QuantileIsFirstCoveringEdge | benchmarks/harness/histograms.py:59-69 | the quantile is the first edge at or below which at least q*count values lie, or the last edge |
| Histograms.QuantileMonotone | benchmarks/harness/histograms.py:59-69 | a larger fraction never gives a smaller quantile |
| Histograms.Quantile | benchmarks/harness/histograms.py:59-69 | the loop answers the first covering bucket's edge, and zero for an empty cell |
| Histograms.Read | benchmarks/harness/histograms.py:110-135 | the loop's cell is the differences of the running counts gathered, or an empty cell |
| Histograms.Histogram.constructor | src/shipinfer/core/metrics/histogram.py:32-40 | a histogram that has observed nothing |
| Histograms.Histogram.Observe | src/shipinfer/core/metrics/histogram.py:42-50 | every cell stays the cell of exactly its own observations |
| Histograms.Histogram.Samples | src/shipinfer/core/metrics/histogram.py:75-83 | the export is each cell's running counts, sum and count, in order |
| Histograms.Histogram.ReadThrough | benchmarks/harness/histograms.py:90-135 | a reading through the export is the cell of exactly the values asked about |
| Ratios.JudgementIsSound | benchmarks/run_bench.py:284-329 | MET holds for every pair of true capacities the measurements allow, NOT MET for none, and the ratio bounds the true one as its kind says |
| Ratios.JudgementIsTight | benchmarks/run_bench.py:284-329 | the answer is left open exactly when capacities on both sides of the target are possible, or one side did nothing at all |
| Ratios.SustainedIsClamped | benchmarks/harness/analysis.py:406-418 | the sustained rate is within zero and the offer, and offer minus growth exactly when that is |
| Ratios.RunVerdictFailsClosed | benchmarks/harness/analysis.py:477-493 | a run is unmeasured exactly when some module is capped or unbounded, saturated exactly when moreover one is, draining exactly when all are, and module order is nothing |
| Ratios.SweepSystem | benchmarks/run_bench.py:717-764 | the sweep measures up to the first capacity or refusal and answers that capacity, or the strongest floor |
| Ratios.SweepKeepsTruth | benchmarks/run_bench.py:717-764 | if every rung is consistent with one true capacity, so is the answer |
| Ratios.SweptVerdictIsSound | benchmarks/run_bench.py:284-329 | two sweeps and their ratio say nothing false of the true speed-up |
| EngineInstall.RefusalWritesNothing | benchmarks/harness/config.py:528-651 | a call refuses exactly when some model does, a refusal leaves every file as it was, and a baseline-only call or one naming no precision never writes |
| EngineInstall.RefusalIsFirst | benchmarks/harness/config.py:537-635 | the model reported is the first refused, in table order |
| EngineInstall.StopsAtFirstFault | benchmarks/harness/config.py:537-635 | by the files alone: a call stops exactly when a model it checks has no known plan name, no flat engine for a named precision, no plan beside its flat engine, or two engines where it may not install; it names the first such model and which of these it is |
| EngineInstall.RunsIffOneEngine | benchmarks/harness/config.py:504-527 | the comparison's guard: a baseline-only call or one naming no precision runs exactly when every model it checks has a known plan that holds its flat engine's bytes or, for ours, the twin's, or has no flat engine and no precision named; and it writes nothing |
| EngineInstall.GoodPlanIsKept | benchmarks/harness/config.py:596-608 | a plan that already is its flat engine or the twin is never installed over, whatever the call and its outcome |
| EngineInstall.OnePrecisionIffClear | benchmarks/harness/config.py:637-651 | a call of ours with a named precision that is not refused runs to its end with every plan equal to its flat engine, or the twin it already was, and every flat engine unchanged, exactly when no flat engine and no twin a plan is kept for lies where this call writes or stages a plan |
| EngineInstall.RerunWritesNothing | benchmarks/harness/config.py:596-651 | under that condition the same call again succeeds and writes nothing |
| EngineInstall.PreflightBaseline | benchmarks/run_bench.py:974-987 | under that condition, after our call the baseline's check passes exactly when neither of its plans is only the twin, and otherwise names the first that is |
| EngineInstall.OverlapBreaksInstall | benchmarks/harness/config.py:637-651 | a concrete configuration whose flat engine is another model's plan, on which a successful call leaves a plan equal to neither |
| EngineInstall.Disk.RequireSameEngines | benchmarks/harness/config.py:504-651 | outcome and files of the two loops are those of the specification, and a refusal leaves the files alone |
| Percentiles.Percentile | csrc/shipinfer/core/percentile.h:28-36 | the vector keeps its multiset and the answer is the sorted samples' element at the rounded rank, zero for none |
| Percentiles.RankInRange | csrc/shipinfer/core/percentile.h:29-33 | the rank is in range for any fraction, monotone, nearest to the exact position for a fraction of the whole, and at the ends outside |
| Percentiles.PercentileMonotone | csrc/shipinfer/core/percentile.h:28-36 | a larger fraction never answers a smaller sample, and the order of samples is nothing |
| Percentiles.PercentileCovers | csrc/shipinfer/core/percentile.h:28-36 | at least rank + 1 samples are at or below the answer and at most rank strictly below |
| Percentiles.SelectedIsRank | csrc/shipinfer/core/percentile.h:34-35 | whatever splits the samples at a position holds one value there in every order |
| Percentiles.Partition | csrc/shipinfer/core/percentile.h:34-34 | a partition step of the selection: smaller before the pivot, the rest after, nothing outside touched |
| Percentiles.NthElement | csrc/shipinfer/core/percentile.h:34-34 | selection in place: nothing before the position is larger and nothing after it smaller |
| Percentiles.ReportWindow | csrc/shipinfer/cli/bench.cpp:324-333 | the four numbers, read from a vector the earlier ones reordered, are those of the samples as they came, in ascending order |
| Segments.LineKeeps | scripts/hooks/require_container.py:899-919 | segments are non-empty and free of operators and redirections, and end to end are the line less operators, redirections and their files, in order |
| Segments.OperatorCuts | scripts/hooks/require_container.py:912-916 | an operator that is no redirection's file cuts a line in two |
| Segments.RedirectVanishes | scripts/hooks/require_container.py:902-911 | a redirection sign and the file after it leave the segments as they would be without them |
| Segments.NothingElseCuts | scripts/hooks/require_container.py:899-919 | nothing else does |
| Segments.TargetIsOdd | scripts/hooks/require_container.py:902-911 | what follows a run of redirection signs is a file exactly when the run is odd |
| Segments.LinesKeep | scripts/hooks/require_container.py:889-900 | a line that does not lex costs that line alone, and a dangling redirection takes nothing from the next |
| Segments.SegmentsOf | scripts/hooks/require_container.py:867-920 | the loops compute those segments |
| Segments.RealCommand | scripts/hooks/require_container.py:967-1005 | the loop terminates with the specified command, a token and its exact suffix |
| Segments.RealIsSuffix | scripts/hooks/require_container.py:967-1005 | the command is a token with exactly what follows, and no assignment, wrapper, flag or operand |
| Segments.RealIdempotent | scripts/hooks/require_container.py:967-1005 | stripping the result again changes nothing |
| Segments.TransparentPrefix | scripts/hooks/require_container.py:992-1003 | a skipped token without flags, operands or subcommands of its own can be put in front of any segment unnoticed |
| Segments.AssignmentPrefix | scripts/hooks/require_container.py:923-923 | variables set in front of a command leave the command found as it is |
| Segments.BadNameIsCommand | scripts/hooks/require_container.py:923-923 | what has an equals sign after no variable name is no assignment but the command |
| Segments.NumberPrefix | scripts/hooks/require_container.py:924-928 | so does a count or a duration |
| Segments.MaskPrefix | scripts/hooks/require_container.py:924-928 | so does a hexadecimal mask |
| Segments.WrapperByPath | scripts/hooks/require_container.py:977-977 | a wrapper is known by its name wherever it is installed |
| Segments.WordIsCommand | scripts/hooks/require_container.py:992-1004 | a plain word that is no wrapper is the command, with everything after it |
| Segments.SudoRunsPytest | scripts/hooks/require_container.py:930-940 | a flag takes a value only of the wrapper that has it: `sudo -u root pytest` and `sudo -n pytest` both run pytest |
| Segments.FlockRunsPytest | scripts/hooks/require_container.py:960-964 | a lock file is not the command |
| Segments.UvRunsPytest | scripts/hooks/require_container.py:978-984 | `uv run pytest` runs pytest and `uv pip` runs uv |
| Buffers.EveryRunOwns | csrc/shipinfer/core/buffers.h:16-79 | over any run of constructions, moves, self-moves and destructions each live block has exactly one owner of its size, nothing is freed twice, and no block outlives the buffers |
| Buffers.MoveReleasesNothing | csrc/shipinfer/core/buffers.h:24-33 | a move frees nothing, a second undoes it, a self-move changes nothing, and a move into a new buffer empties the source |
| Buffers.ComesAndGoes | csrc/shipinfer/core/buffers.h:16-33 | a buffer built, moved into another and destroyed with it leaves the memory as it was, one block given out and one returned |
| Buffers.DeviceBuffer.constructor | csrc/shipinfer/core/buffers.cpp:7-10 | zero bytes allocate nothing; otherwise the buffer owns one new block of that size |
| Buffers.DeviceBuffer.MoveFrom | csrc/shipinfer/core/buffers.h:24-24 | the new buffer takes everything and the source is empty |
| Buffers.DeviceBuffer.Swap | csrc/shipinfer/core/buffers.h:30-33 | contents exchanged, aliasing included |
| Buffers.DeviceBuffer.MoveAssign | csrc/shipinfer/core/buffers.h:25-28 | contents exchanged; onto itself nothing changes |
| Buffers.DeviceBuffer.Destroy | csrc/shipinfer/core/buffers.cpp:12-17 | exactly the buffer's block is freed |
| Labels.LabelsEqualIff | benchmarks/parity/drive_tracking.py:60-66 | two id streams mint one label stream exactly when the same places share an id |
| Labels.PatternIffBijection | benchmarks/parity/drive_tracking.py:60-66 | that is, exactly when a bijection of ids relates them place by place |
| Labels.LabelsSeparate | benchmarks/parity/drive_tracking.py:60-66 | two places carry one label exactly when they carry one id |
| Labels.RenderRenamed | benchmarks/parity/drive_tracking.py:103-131 | the rendering is unchanged by any injective renaming of ids |
| Labels.RenderSees | benchmarks/parity/drive_tracking.py:103-131 | a scenario's labels are those of the one stream of ids drawn over its frames |
| Labels.RenderFrame | benchmarks/parity/drive_tracking.py:125-131 | the row loop: later tracks overwrite, rows out of range draw and mint nothing |
| Labels.RenderTracking | benchmarks/parity/drive_tracking.py:103-131 | the frame loop computes the specified rendering |
| Calibration.InterleaveKeepsOrder | scripts/build_engines.py:191-203 | the interleave is each directory's whole list in its own order |
| Calibration.EveryPrefixIsFair | scripts/build_engines.py:191-203 | in every prefix a directory has given all it has, or no fewer than one less than any other |
| Calibration.ChosenIsFair | scripts/build_engines.py:275-275 | the files taken are the first of the interleave, 256 or all there are, and fair between directories |
| Calibration.CalibrationFiles | scripts/build_engines.py:191-203 | the loop computes the interleave |
| Calibration.CalibrationBatches | scripts/build_engines.py:230-245 | the batches are the decodable frames in order, all but the last of exactly 8 |
| Calibration.DecodedInOrder | scripts/build_engines.py:230-245 | every frame that decodes is kept in its place among those, and no other |
| Calibration.LimitSuffices | scripts/build_engines.py:290-294 | there are just enough batches for what decodes and never more than the feeder's limit |
| Shards.PlanExplicit | benchmarks/harness/shards.py:78-93 | the slices are the camera list in order, none empty, and their offered rates add up to the run's |
| Shards.PassesIffSplits | benchmarks/harness/config.py:313-338 | the checks refuse exactly what cannot be planned: a split passes if and only if there are processes, as many as asked for, and the camera list can be cut into shards of those sizes with a GPU each |
| Shards.RelabelTable | benchmarks/harness/shards.py:277-296 | the loop adds every count under its physical device |
| Shards.RelabelConserves | benchmarks/harness/shards.py:277-296 | relabelling keeps every model's total, even where labels fall together |
| Shards.RelabelMoves | benchmarks/harness/shards.py:277-296 | every count ends under the physical GPU it was made on, and what is no GPU stays as it is |
| Shards.AggregateTable | benchmarks/harness/shards.py:241-252 | the loops add up all shards' entries |
| Shards.AggregateConserves | benchmarks/harness/shards.py:241-252 | the fleet's table keeps every model's total over the shards |
| Shards.RelabelledFleetConserves | benchmarks/harness/shards.py:219-296 | from the children's tables through relabelling to the fleet's, every model's total is what was counted |
| Shards.TableIgnoresOrder | benchmarks/harness/shards.py:241-252 | the order of shards does not change the table |
| Shards.WorstIgnoresOrder | benchmarks/harness/shards.py:229-232 | the fleet's verdict is the worst of its shards', none is unmeasured, and order is nothing |
| Shards.FleetAgreesWithProcess | benchmarks/harness/shards.py:222-232 | the fleet's verdict claims what a process with those verdicts would exactly when it has not both a saturated and an unmeasured shard |
| Shards.FleetSoundIff | benchmarks/harness/shards.py:222-232 | the fleet's number is consistent with all true capacities its shards allow exactly when no shard saturated, all did, or one has no number |

## Left out

- RerunWritesNothing: its condition is exact for what the first call leaves and only sufficient for the second: two flat engines that are each other's plan overwrite each other once and are then left alone.
- PreflightBaseline: the same condition, for the same reason.
- PlanWithinFourThirds: which uneven plans meet the 4/3 is open where the GPUs are more than twice the shards but fewer than three times or fewer than shards squared, and where the shards are more than three times the GPUs; `SevenOnTwenty` and `TenOnThree` are two that do not, and there `PlanWithinThirdOfLargest` is what holds of all.
- MakeRoom: the wait of a BLOCK put, its timeout and its exit with room are not modelled; a BLOCK put is one step at the moment its wait ends.
- ParseLines: refuses general JSON that the writer never emits, such as spaces, escapes and fractions, and conversions of foreign values by `int()` and `str()`.
- Explain: the entry ids are a sorted list; joining them with `+` is rendering.
- WithinFourThirds: is about load per shard; the load per device, which several shards share, has no bound of its own here.
- TotalIsALowerBound: takes each tick's readings as one snapshot, and the CPU of a thread as any non-negative function that no reading exceeds.
- FairPriorityQueue: holds its lanes as values; the lane object is proved separately. Condition variables and the wait for a batch to fill are not modelled.
- Camera ids in the queue and in plans, GPU ordinals, models and devices in tables are numbers: only their equality and order matter. A GPU list with an ordinal twice is not modelled, and neither are the derived figures of a plan (imbalance, device load, sharing and ranks).
- Json: the subset the writer emits, without whitespace, escapes, fractions or exponents; conversions of foreign values by `int()` and `str()` are not modelled, and neither is the rendered text of a difference.
- FitGrowth: compares squares instead of taking a square root; `VerdictIsByInterval` says that nothing is lost. Not-a-number and infinite samples are out.
- Histogram: edges are strictly ascending and a label set is compared as a whole; concurrent observers are not modelled.
- RealFrom: tokens are given; lexing, here-documents, the block lists and the scan of Python bodies are out.
- NthElement: the library's selection is modelled as one that picks the last element of the range as pivot; which element it picks is invisible in the contract.
- DeviceBuffer: stands for the pinned buffer too, which differs only in the allocator it calls.
- RenderTracking: takes tracks with their rows; a tracker that answers different numbers of tracks and rows raises, and the text around the labels is not modelled.
- AggregateTable: nested dictionaries are one table keyed by model and device, and the binding module, which does depend on the order of shards, is not modelled.
- The offline build's compiler calls, freshness stamps and the full, accelerated build.
- `sampler.top`, rounding of reported numbers and every other rendering.
- The rest of the repository: micro-batcher, dispatcher, placement policies, reassembly and frame barrier, camera actors and back-off, shared-memory rings, control plane, model repository, kernels and engines, RTSP serving and the scenario loaders.
