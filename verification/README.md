# Verification of the input-queued switch simulator

This project models the scheduling core of the simulator and of its matching library, and proves what the
schedulers are for. The parts, and the main results about each:

- **iSLIP** (`RoundRobin`, `ISlipSpec`, `ISlipTightness`, `ISlip`, `ISlipLiveness`, `ISlipSwitch`,
  `ISlipStep`). Round-robin pointers move on first-iteration accepts only. No queue starves, with an explicit
  bound in slots; the iterations converge to a maximal matching, and exactly how many are enough; in every run of
  switch and scheduler the status bits agree with the queues.
- **The randomized maximal scheduler** (`RandomizedMaximal`). The indexed edge set survives swap-removal, and
  the greedy pass serves every shuffle first come, first served and is maximal in spite of its early exit.
- **QPS over sum trees** (`SumTrees`, `QpsSpec`, `QpsTightness`, `QpsDeterminism`, `Qps`). Sampling is
  proportional, removal without replacement is undone exactly, and enough iterations, with the exact number, give
  a maximal matching for every outcome of the sampling.
- **Switches and simulator** (`SwitchSpec`, `QueueOrder`, `Switches`, `LittlesLaw`, `SimplifiedLaw`, `Simulator`,
  `SwitchingCycles`). The counting switch refines the packet switch, as functions and as objects driven side by
  side; packets are conserved and leave each queue in the order they were read; Little's law holds exactly on every run, also between the two switches. Whole runs
  from the constructors keep every scheduler's record of the queues in agreement with the switch.
- **Matrix decomposition** (`MaxTrees`, `DoubleMax`, `EdgeColoring`, `Decomposition`, `Utilities`). Rounds of
  matchings are stripped off until the matrix is empty; when that succeeds, what the rounds add up to, and how
  many there are.
- **Small-batch QPS** (`Availability`, `SbQpsSpec`, `FirstFitRounds`, `SbQps`, `SbQpsPools`, `Selection`,
  `SerenaSpec`, `Serena`, `FutureTree`, `FutureMerge`, `ParallelSbQps`, `Quantized`). First-fit allocation on bitmaps
  and counters, completion and merging of matchings, the promise/future tree of the parallel version, and the
  quantized pool of proposals. Lengths and random numbers determine the result, whatever the interleaving.
- **iPOC** (`Ipoc`). Matching with displacement and duplicate-free lists of nonempty queues.

`Sums`, `Matchings`, `Voq` and `Tracking` hold what these share: sums, matchings as pairs of arrays, the view of
the virtual output queues with its sentinel-terminated lists, and nonempty-queue bookkeeping.

Objects that the program updates are classes with methods proved against specification functions; vectors are
fields of sequence type, and `merge` and `fix_matching` work in place on arrays. Every random choice (shuffle,
draw, sampled output, injected packet) is a parameter, so the theorems hold for all outcomes.

Where the code and what it is meant for part:

- `matching_size` counts only outputs below the number of inputs (matching/src/serena/serena.hpp:17). The
  decomposition therefore fails its assertion when a packet is for an output beyond that, and also when the
  cutoff is zero; `EdgeColoring.Scheduler.Schedule` states the exact condition, and
  `EdgeColoring.ScheduleBigColumn` is a call that fails. A negative cutoff is converted to a huge unsigned number
  and accepts everything.
- Only thread 0 merges what it takes (matching/src/sb_qps.cc:510-519), so the parallel result depends on the
  schedules of threads 0, 1, 2, 4, 8 and so on only. It is the merge of all schedules, and at least as heavy as
  each, whatever they are, exactly when there are at most three threads or the switch has a single port, which
  has one schedule only: `FutureMerge.OutweighsAllIff`. With more, crossing the first two ports is lost when only
  thread 3 finds it: `FutureMerge.LateCrossingIsLost`.
- `mixed_max_merge` returns an empty vector exactly when every merged group has a negative weight
  (matching/src/sb_qps.cc:367-384): `Selection.MixedMaxMerge`. `Selection.NegativeGroupGivesNothing` is such a
  call; with nonnegative weights there is none.
- Building a sampler leaf by leaf recurses on node 0 without end for a single leaf
  (src/scheduler/qp_sampler.cpp:60), and only then: `SumTrees.LeafByLeafReturnsIff`.
- A maximal matching needs as many iterations as the smaller side has ports, for iSLIP and for QPS without
  replacement; with replacement no number of iterations is enough unless one side has a single port.
- The pairs that `fix_matching` adds are not entered into the bitmaps and counters (matching/src/sb_qps.cc:277-279).
  Until the next reset they agree with the schedules exactly when the rounds have filled every slot:
  `SbQps.Scheduler.Schedule`. `SbQps.UnfilledSlotDisagrees` is a call after which they do not.

## Model

| member | source | states |
|---|---|---|
| `RoundRobin.FirstFromIsNearest` | src/scheduler/maximal_scheduler.cc:231-239 | the scan from a pointer finds the requesting port at the least circular distance ahead of it, or shows that there is none |
| `RoundRobin.DistanceIsSteps` | src/scheduler/maximal_scheduler.cc:231-239 | the circular distance is the number of steps from the pointer on |
| `ISlipSpec.AcceptedAtOnce` | src/scheduler/maximal_scheduler.cc:243-269 | accepting input by input, pointers updated on the way, is the same as all inputs accepting at once |
| `ISlipSpec.IterateIsIteration` | src/scheduler/maximal_scheduler.cc:221-270 | in every iteration, the first and the later ones, a free input with grants is matched to the free output at the least circular distance ahead of its accept pointer among those whose nearest requesting free input, ahead of their grant pointer, it is; an input without grants stays unmatched; pointers move in the first iteration only, one past the accepted port |
| `ISlipSpec.IterationIsUnique` | src/scheduler/maximal_scheduler.cc:221-270 | that leaves one outcome of an iteration |
| `ISlipSpec.IterationsInTurn` | src/scheduler/maximal_scheduler.cc:218-270 | the iterations of a slot are such iterations one after the other, the first one being the first iteration |
| `ISlipSpec.IterateKeepsMatching` | src/scheduler/maximal_scheduler.cc:221-270 | an iteration keeps the two match arrays mutually inverse, keeps every pair and matches requests only; pointers stay in range |
| `ISlipSpec.IterateProgress` | src/scheduler/maximal_scheduler.cc:221-270 | an iteration from a matching that is not maximal adds at least one pair |
| `ISlipSpec.MaximalIffStable` | src/scheduler/maximal_scheduler.cc:221-270 | an iteration changes nothing exactly when the matching is maximal over the nonempty queues |
| `ISlipSpec.Converges` | src/scheduler/maximal_scheduler.cc:221-270 | after as many iterations as the smaller number of ports the matching is maximal, for all pointers and queues |
| `ISlipTightness.EnoughIff` | src/scheduler/maximal_scheduler.cc:221-270 | a number of iterations ends in a maximal matching for all pointers and queues exactly when it is at least the number of inputs or of outputs |
| `ISlip.Scheduler.HandleArrivals` | src/scheduler/maximal_scheduler.cc:185-197 | exactly the queues listed before the sentinel become marked as nonempty |
| `ISlip.Scheduler.HandleDepartures` | src/scheduler/maximal_scheduler.cc:199-206 | exactly the matched queues that hold a single packet become marked as empty |
| `ISlip.Scheduler.Grant` | src/scheduler/maximal_scheduler.cc:222-240 | every unmatched output grants the requesting unmatched input next to its pointer |
| `ISlip.Scheduler.Accept` | src/scheduler/maximal_scheduler.cc:243-269 | every granted input accepts the nearest granting output ahead of its pointer, in later iterations too; the assertion of free ports holds; pointers move in the first iteration only |
| `ISlip.Scheduler.Schedule` | src/scheduler/maximal_scheduler.cc:208-273 | a slot is arrivals, the iterated matching from scratch and departures; status, match arrays and pointers are all determined |
| `ISlip.Scheduler.Init` | src/scheduler/maximal_scheduler.cc:275-279 | the status marks exactly the nonempty queues |
| `ISlipLiveness.FirstIterationStays` | src/scheduler/maximal_scheduler.cc:261-265 | pairs and pointers of the first iteration survive all later iterations |
| `ISlipLiveness.MeasureDecreases` | src/scheduler/maximal_scheduler.cc:221-265 | while a waiting queue is not served, the triple of circular distances (output pointer to input, output pointer to granted input, accept pointer of that input to output) decreases lexicographically |
| `ISlipLiveness.UnservedSlot` | src/scheduler/maximal_scheduler.cc:208-273 | over a slot that does not serve it, a waiting queue stays waiting and its remaining wait gets smaller, whatever arrives |
| `ISlipLiveness.NoStarvation` | src/scheduler/maximal_scheduler.cc:208-273 | in every run with any arrivals and any positive iteration count, a nonempty queue is served within outputs * inputs * (inputs + 1) / 2 slots |
| `ISlipLiveness.BacklogDrains` | src/scheduler/maximal_scheduler.cc:208-273 | p waiting packets of a queue have left after p times the bound, whatever arrives |
| `ISlipLiveness.BoundIsCubic` | src/scheduler/maximal_scheduler.cc:208-273 | the bound in closed form; it is at most inputs * inputs * outputs |
| `ISlipSwitch.Switching` | src/switch/iq_switch.cc:150-155 | a switching cycle of the simplified switch under iSLIP is one step of the system of the liveness theorem, and the status marks exactly the nonempty queues again |
| `ISlipSwitch.RunWithISlip` | src/switch/iq_switch.cc:150-155 | from the constructors on, for every list of offered packets: after every slot the status marks exactly the nonempty queues, every slot is a cycle of the switch and a step of the system of the liveness theorem, and with enough iterations every matching is maximal |
| `ISlipSwitch.RunServes` | src/scheduler/maximal_scheduler.cc:208-273 | in every such run a queue that is nonempty in a slot sends a packet within the bound |
| `ISlipStep.StepIsLegal` | src/scheduler/maximal_scheduler.cc:208-273 | as a function of its pointers and the lengths, iSLIP is a scheduler the simulators accept: whatever it is shown, it uses an output once at most |
| `ISlipStep.StepIsSlot` | src/switch/iq_switch.cc:150-155 | a slot of the simplified switch under this function is a slot of the system of the liveness theorem |
| `ISlipStep.SimulateBoth` | src/simulator/simulator.cc:324-430 | both simulators from their constructors under iSLIP and the same traffic: neither objects, their counters agree, and the length samples of one give the delays of the other |
| `RandomizedMaximal.Scheduler.Insert` | src/scheduler/maximal_scheduler.cc:16-36 | the edge is in the set, all others are as before, and the dense edge prefix and the index stay mutually inverse |
| `RandomizedMaximal.Scheduler.Erase` | src/scheduler/maximal_scheduler.cc:38-69 | the edge is not in the set, all others are as before, and swap-remove keeps prefix and index mutually inverse |
| `RandomizedMaximal.Scheduler.HandleArrivals` | src/scheduler/maximal_scheduler.cc:81-91 | exactly the listed arrivals enter the edge set |
| `RandomizedMaximal.Scheduler.HandleDepartures` | src/scheduler/maximal_scheduler.cc:93-102 | exactly the matched queues with a single packet leave the edge set |
| `RandomizedMaximal.Scheduler.Greedy` | src/scheduler/maximal_scheduler.cc:125-138 | the pass with its early exit is a maximal matching on the listed edges and equals the pass without early exit |
| `RandomizedMaximal.Scheduler.Schedule` | src/scheduler/maximal_scheduler.cc:104-141 | for every shuffle the edges are served in the order of the shuffled list of nonempty queues: an edge is left out only if an earlier matched one shares a port with it; the matching is maximal over the nonempty queues, and the edge set holds the queues that stay nonempty |
| `RandomizedMaximal.Scheduler.Init` | src/scheduler/maximal_scheduler.cc:143-148 | the edge set holds exactly the nonempty queues |
| `RandomizedMaximal.FullSizeBlocks` | src/scheduler/maximal_scheduler.cc:134-136 | a matching as large as the smaller number of ports blocks every edge, which justifies the early exit |
| `RandomizedMaximal.PassServes` | src/scheduler/maximal_scheduler.cc:125-138 | the pass is a matching of listed edges in which every edge left out shares a port with an earlier matched one |
| `RandomizedMaximal.ServedIsUnique` | src/scheduler/maximal_scheduler.cc:125-138 | for a given order there is one such matching |
| `SwitchingCycles.SwitchingWithMaximal` | src/switch/iq_switch.cc:150-155 | a cycle under the randomized maximal scheduler moves what arrived and what was matched, the matching is maximal on what is there, the edge set agrees with the switch again, and the switch is ready for the next cycle |
| `SwitchingCycles.SwitchingWithQps` | src/switch/iq_switch.cc:150-155 | the same for QPS: the trees represent the new lengths; without replacement and with enough iterations the matching is maximal |
| `SwitchingCycles.SwitchingWithIpoc` | src/switch/iq_switch.cc:150-155 | the same for iPOC: the lists hold exactly the nonempty queues again |
| `SwitchingCycles.RunWithMaximal` | src/switch/iq_switch.cc:150-155 | from the constructors on, for every list of offered packets and every shuffle: between all slots the edge set holds exactly the nonempty queues, every slot is a cycle of the switch, and every matching is maximal |
| `SwitchingCycles.RunWithQps` | src/switch/iq_switch.cc:150-155 | the same for QPS, for every order, draw and policy: between all slots the trees represent the lengths; without replacement and with enough iterations every matching is maximal |
| `SwitchingCycles.RunWithIpoc` | src/switch/iq_switch.cc:150-155 | the same for iPOC: between all slots the lists hold exactly the nonempty queues, and every decision is a matching |
| `SumTrees.RootIsTotal` | include/saber/utils.hpp:76-123 | the root of a sum tree is the sum of its leaves |
| `SumTrees.SameLeavesSameTree` | include/saber/utils.hpp:104-114 | a sum tree is determined by its leaves |
| `SumTrees.SearchIsScan` | matching/src/qp_sampler.cpp:76-83 | the descent lands on the output a linear prefix-sum scan of the leaves finds |
| `SumTrees.IndexSampleIsProportional` | matching/src/qp_sampler.cpp:43-58 | an index in [0, total) selects output i exactly when it is in i's prefix interval, so i gets exactly queue[i] indices, and never an empty queue or padding leaf |
| `SumTrees.SampleIsProportional` | include/saber/utils.hpp:78-98 | the same for a real bound in [0, total) |
| `SumTrees.Update` | include/saber/utils.hpp:104-114 | adding to a leaf and its ancestors keeps every inner node the sum of its children, and changes that leaf only |
| `SumTrees.Remove` | include/saber/utils.hpp:99-103 | the leaf becomes zero, its old value is returned, the tree stays a sum tree |
| `SumTrees.BuildTree` | matching/src/qp_sampler.cpp:60-74 | the recursive build turns any leaves into a sum tree and keeps the leaves |
| `SumTrees.BuildLeafByLeaf` | src/scheduler/qp_sampler.cpp:51-62 | clearing the inner nodes and adding leaf by leaf returns exactly when there are two leaves or more, and then has built a sum tree over the same leaves |
| `SumTrees.LeafByLeafReturnsIff` | src/scheduler/qp_sampler.cpp:51-62 | the recursion from every parent of a leaf reaches the root exactly when there are two leaves or more |
| `SumTrees.BuildByUpdates` | src/scheduler/qps.cc:210-215 | adding the lengths one by one to an all-zero tree builds a sum tree over them |
| `SumTrees.BuildsAgree` | src/scheduler/qp_sampler.cpp:51-62 | run on the same lengths, the recursive build, the build by updates and, with two leaves or more, the leaf-by-leaf build end in the same tree |
| `QpsSpec.RepresentationIsUnique` | src/scheduler/qps.cc:82-99 | a tree that represents given queues is unique, so removing and restoring leaves every node as it was |
| `QpsSpec.SampledQueue` | src/scheduler/qps.cc:60-75 | the sampled output d is the one with Sum(row[..d]) <= draw * Sum(row) < Sum(row[..d + 1]), and its queue is nonempty |
| `QpsSpec.SampledExactly` | src/scheduler/qps.cc:60-75 | an output is sampled exactly for the draws in its interval, which has the length of its share of the total |
| `QpsSpec.KeptArePreferred` | src/scheduler/qps.cc:148-166 | of all proposals to a free output the kept one is, by policy, the longest, the shortest or the one of the smallest input, earlier ones first among equals; under the other policies it is the earliest |
| `QpsSpec.RoundEffect` | src/scheduler/qps.cc:131-187 | a round keeps a matching on nonempty queues, drops no pair, and every proposal goes to an output that is matched afterwards |
| `QpsSpec.RoundsSuffice` | src/scheduler/qps.cc:121-203 | without replacement, as many rounds as inputs or as outputs make the matching maximal |
| `QpsTightness.EnoughIff` | src/scheduler/qps.cc:121-203 | without replacement, a number of rounds ends in a maximal matching for all lengths, orders and draws exactly when it is at least the number of inputs or of outputs, under every policy |
| `QpsTightness.EnoughWithReplacementIff` | src/scheduler/qps.cc:121-203 | with replacement, one round is enough when one side has a single port, and otherwise no number of rounds is |
| `Qps.Scheduler.HandleArrivals` | src/scheduler/qps.cc:37-47 | the trees represent the lengths with all listed arrivals enqueued |
| `Qps.Scheduler.HandleDepartures` | src/scheduler/qps.cc:49-58 | the trees represent the lengths after the matched nonempty queues have lost a packet |
| `Qps.Scheduler.Sampling` | src/scheduler/qps.cc:60-75 | an input samples output d with Sum(row[..d]) <= draw * Sum(row) < Sum(row[..d + 1]) |
| `Qps.Scheduler.Propose` | src/scheduler/qps.cc:131-170 | every free input with packets proposes to its sample; every free output that was proposed to keeps the proposal its policy prefers, first come among equals |
| `Qps.Scheduler.Accept` | src/scheduler/qps.cc:178-187 | exactly the kept proposals become pairs |
| `Qps.Scheduler.RemoveVOQ` | src/scheduler/qps.cc:82-87 | the queue is emptied in the tree and the removed length is the one the switch reports, so the assertion holds |
| `Qps.Scheduler.RemoveRejected` | src/scheduler/qps.cc:191-202 | exactly the rejected queues are emptied, none twice, and the undo list records their positive lengths |
| `Qps.Scheduler.RestoreVOQ` | src/scheduler/qps.cc:89-99 | all removed queues are back, and the assertion of positive lengths holds |
| `Qps.Scheduler.Round` | src/scheduler/qps.cc:121-203 | one iteration is a round with these draws, this order and this policy |
| `QpsDeterminism.RoundIsDetermined` | src/scheduler/qps.cc:121-203 | two rounds from one state with the same order, draws and policy end in the same state |
| `QpsDeterminism.TraceIsDetermined` | src/scheduler/qps.cc:106-205 | all choices of a slot determine all its states |
| `Qps.Scheduler.MatchPorts` | src/scheduler/qps.cc:106-205 | the iterations in sequence; afterwards every tree node has its old value; without replacement and with as many iterations as inputs or as outputs the matching is maximal for every draw, order and policy |
| `Qps.Scheduler.Schedule` | src/scheduler/qps.cc:101-208 | a slot keeps the trees equal to the switch's lengths after the departures |
| `Qps.Scheduler.Init` | src/scheduler/qps.cc:210-215 | the trees represent the lengths of the switch |
| `Switches.SIQSwitch.ReadInputs` | src/switch/iq_switch.cc:21-56 | all channels are emptied, each packet counted in its queue and listed in order before the sentinel; nothing happens without channels |
| `Switches.SIQSwitch.WriteOutputs` | src/switch/iq_switch.cc:57-87 | every matched nonempty queue loses one packet, listed in input order before the sentinel |
| `Switches.SIQSwitch.Switching` | src/switch/iq_switch.cc:150-155 | a cycle with any scheduler that sees arrivals and lengths is one slot of the refinement theorem: lengths, decision, listed arrivals and departures |
| `Switches.GIQSwitch.ReadInputs` | src/switch/iq_switch.cc:175-207 | all channels are emptied and the packets listed before the sentinel; every old queue is a prefix of the new one, followed by exactly its packets in the order read, stamped with the timer; fails without channels |
| `Switches.GIQSwitch.WriteOutputsDepartInfoDisabled` | src/switch/iq_switch.cc:217-232 | every matched nonempty queue sends its first packet; for a matching the occupancy assertion holds |
| `Switches.GIQSwitch.WriteOutputsDepartInfoEnabled` | src/switch/iq_switch.cc:233-258 | the same, with the departures listed before the sentinel |
| `Switches.GIQSwitch.Switching` | src/switch/iq_switch.cc:315-323 | a cycle reads and lists the arrivals, asks the scheduler with the arrivals and the lengths, sends by its decision, lists the departures if they are enabled, and advances the timer |
| `SwitchSpec.LengthsPushed` | src/switch/iq_switch.cc:192-200 | the lengths of the packet queues after reading are the counters of the simplified switch |
| `SwitchSpec.LengthsSent` | src/switch/iq_switch.cc:219-231 | the lengths of the packet queues after sending are the counters of the simplified switch |
| `SwitchSpec.SentPairsAreDeparted` | src/switch/iq_switch.cc:234-257 | both switches list the same departures |
| `SwitchSpec.SimplifiedRefinesGeneric` | src/switch/iq_switch.h:153-162 | for every run and every scheduler that sees arrivals and lengths only, both switches show the same arrivals, departures and lengths in every slot |
| `Switches.SlotOfBoth` | src/switch/iq_switch.h:153-162 | driven with the same packets and the same scheduler, each showing it its own lengths, the two objects list the same arrivals and departures and keep the same lengths |
| `Switches.RunOfBoth` | src/switch/iq_switch.h:153-162 | from the constructors on, over any number of slots, what both objects show is the run of the refinement theorem |
| `SwitchSpec.OnePacketPerChannel` | src/simulator/simulator.cc:298-301 | under a matching each output channel gets at most one packet per slot, so the assertion holds |
| `SwitchSpec.DepartedInOrder` | src/switch/iq_switch.cc:57-87 | the listed departures are exactly the matched nonempty queues, once each and by increasing input |
| `QueueOrder.OfferedInOrder` | src/switch/iq_switch.cc:175-207 | the packets of an input channel are read after those of the channels before it, in their own order |
| `QueueOrder.PushedHaveJoined` | src/switch/iq_switch.cc:192 | reading appends to each queue exactly its packets, in the order read and stamped |
| `QueueOrder.SentToChannel` | src/switch/iq_switch.cc:219-231 | under a matching, an output channel gets exactly the first packet of the queue matched to it, stamped with its departure time |
| `QueueOrder.RunsAreFirstInFirstOut` | src/switch/iq_switch.cc:175-258 | on every run the packets of a queue leave in the order they were read, one per slot at most and not before their arrival, and the ones still waiting are the last ones read, in that order |
| `QueueOrder.QueuesAreInOrder` | src/switch/iq_switch.cc:175-258 | so arrival stamps never decrease along a queue |
| `LittlesLaw.SlotKeepsBalance` | src/simulator/simulator.cc:409-424 | a slot conserves packets and their waiting time |
| `LittlesLaw.LittlesLawHolds` | src/switch/iq_switch.h:160-161 | on every run from an empty switch: packets are conserved, and the queue length samples sum exactly to the recorded delays plus the ages of the packets still queued, less the transmission delay of each departed packet |
| `LittlesLaw.RunTotals` | src/simulator/simulator.cc:409-424 | the arrivals of a run are the packets offered, the stall counter is the queued packets and the length samples are these added up over all slots |
| `SimplifiedLaw.SameCounters` | src/simulator/simulator.cc:409-424 | on every run the counters of the simplified switch are those of the generic one without its delays |
| `SimplifiedLaw.SameDecisions` | src/switch/iq_switch.h:153-162 | a scheduler decides the same throughout a run whichever switch it is shown |
| `SimplifiedLaw.SimplifiedLittlesLaw` | src/switch/iq_switch.h:159-162 | on every run of every scheduler, the length samples of the simplified switch sum to the delays the generic switch records, plus the ages of the packets left, less the transmission delays; when none is left, to the delays less the transmission delays |
| `Simulator.IQSwitchSimulator.Arriving` | src/simulator/simulator.cc:281-293 | each channel holds exactly the packet injected for its input, with that source and destination, or nothing; the count is right |
| `Simulator.IQSwitchSimulator.Departing` | src/simulator/simulator.cc:298-310 | every channel of the generic switch is emptied and its delay recorded; the assertion of one packet per channel holds |
| `Simulator.SimplifiedSimulator.Departing` | src/simulator/simulator.cc:311-319 | for the simplified switch, the departures listed before the sentinel are counted |
| `Simulator.IQSwitchSimulator.CheckEmpty` | src/simulator/simulator.cc:383-399 | queues, input channels and output channels are checked in this order, and the first that is not empty is reported |
| `Simulator.IQSwitchSimulator.SimulateSlot` | src/simulator/simulator.cc:409-424 | one pass of the loop over the generic switch is one slot of the counters under the scheduler's decision |
| `Simulator.SimplifiedSimulator.SimulateSlot` | src/simulator/simulator.cc:409-424 | one pass of the loop over the simplified switch is one slot of its counters under the scheduler's decision |
| `Simulator.IQSwitchSimulator.SimulateOn` | src/simulator/simulator.cc:324-430 | nothing is simulated unless queues and channels are empty; otherwise, over any number of slots and with any scheduler, the counters are those of the run, the stall counter equals the queued packets and the samples satisfy Little's law exactly |
| `Simulator.SimplifiedSimulator.SimulateOn` | src/simulator/simulator.cc:324-430 | the same for the simplified switch: its counters are those of the generic run, and its length samples give that run's delays |
| `MaxTrees.DescendFindsFirstLargest` | matching/src/qp_sampler.cpp:200-207 | the descent from a node finds the first of the largest leaves below it, whose value the node holds |
| `MaxTrees.RootAndSample` | matching/src/qp_sampler.cpp:169-182 | the root is zero exactly when all queues are empty; otherwise the descent finds the least-index longest queue |
| `MaxTrees.BuildMax` | matching/src/qp_sampler.cpp:192-198 | the recursive build makes every inner node below the root of the build the maximum of its children and changes nothing else |
| `MaxTrees.MaxPropose.Assign` | matching/src/qp_sampler.cpp:253-259 | the tree represents the new lengths |
| `MaxTrees.MaxPropose.Update` | matching/src/qp_sampler.cpp:161-167 | recomputing the ancestors restores the tournament tree and keeps the leaves |
| `MaxTrees.MaxPropose.Increment` | matching/src/qp_sampler.cpp:235-240 | the tree represents the lengths with one of them changed |
| `MaxTrees.MaxPropose.Sample` | matching/src/qp_sampler.cpp:169-182 | the least-index longest queue, or -1 exactly when all are empty |
| `MaxTrees.MaxPropose.GetQueueLength` | matching/src/qp_sampler.cpp:209-216 | the sum of the queue lengths |
| `MaxTrees.MaxPropose.IsEmpty` | matching/src/qp_sampler.cpp:241-243 | true exactly when all queues are empty |
| `DoubleMax.SortProposals` | matching/src/double_max.cc:79-86 | sorting permutes the proposals into an order in which none comes before an earlier one: longer queue first, then larger input |
| `DoubleMax.OrderedHead` | matching/src/double_max.cc:79-98 | the first of the sorted proposals is one of them and none comes before it |
| `DoubleMax.AllAccepted` | matching/src/double_max.cc:56-108 | a round is a matching on nonempty queues; it serves somebody unless there are no packets or the cutoff is zero, and a globally longest queue if the cutoff is at least the number of inputs |
| `DoubleMax.KeptProposalsExactly` | matching/src/double_max.cc:60-70 | an output keeps the proposal of an input exactly if fewer than the cutoff lower inputs propose to it, or the cutoff is negative |
| `DoubleMax.DoubleMaxRoundIsUnique` | matching/src/double_max.cc:56-108 | the matrix and the cutoff determine the round |
| `EdgeColoring.Scheduler.Propose` | matching/src/double_max.cc:60-70 | every output keeps exactly the first proposals up to the cutoff, by increasing input, of the inputs whose least-index longest queue leads there |
| `EdgeColoring.Scheduler.MatchElement` | matching/src/double_max.cc:110-116 | the pair is scheduled, both ports are used up and one packet leaves the trees |
| `EdgeColoring.Scheduler.AcceptOne` | matching/src/double_max.cc:73-99 | the output is matched to the winner among its kept proposals, longer queue first, then larger input, and takes nobody else |
| `EdgeColoring.Scheduler.Qps` | matching/src/double_max.cc:56-108 | a whole round: an output is matched to an input exactly if it keeps its proposal and every other it keeps is shorter, or as long and of a lower input; the trees hold the matrix without their packets |
| `EdgeColoring.Scheduler.Reset` | matching/src/double_max.cc:150-162 | all ports are available and nothing is scheduled |
| `EdgeColoring.MatchingSize` | matching/src/serena/serena.hpp:11-28 | the number of distinct outputs below the number of inputs, or -1 when one of them repeats |
| `EdgeColoring.Scheduler.Schedule` | matching/src/double_max.cc:122-148 | the call terminates, and it succeeds exactly when there are no packets or the cutoff is not zero and no packet is for an output beyond the number of inputs; then its rounds strip the matrix to zero |
| `EdgeColoring.ScheduleBigColumn` | matching/src/double_max.cc:122-148 | a call that fails: one input, two outputs, one packet for the second output |
| `Decomposition.EntriesAddUp` | matching/src/double_max.cc:135-144 | in every decomposition, entry by entry, the rounds that serve it and what is left add up to the matrix |
| `Decomposition.RoundsCoverRowsAndColumns` | matching/src/utilities.h:101-121 | any number of rounds takes at most that many packets from any row and any column |
| `Decomposition.RoundsBoundedByTotal` | matching/src/utilities.h:93-99 | any number of rounds takes at least that many packets |
| `Decomposition.CompleteDecomposition` | matching/src/double_max.cc:122-148 | the matchings of a complete decomposition sum entrywise to the matrix; there are at least as many as any row or column sum and at most as many as packets |
| `Utilities.MaxRowSum` | matching/src/utilities.h:101-108 | the largest row sum |
| `Utilities.MaxColumnSum` | matching/src/utilities.h:110-121 | the largest column sum, or -1 without rows |
| `Utilities.RoundsWithinBounds` | matching/src/utilities.h:93-121 | the round count is between the larger of both and the matrix sum |
| `Serena.IsMatchingVector` | matching/src/serena/serena.hpp:29-42 | the check succeeds exactly for permutations |
| `Serena.FixMatching` | matching/src/serena/serena.hpp:44-71 | the assertion of equally many unmatched inputs and outputs holds exactly when no output is taken twice; then the result is a full matching that keeps every pair and joins the rest in order |
| `Serena.FollowCycle` | matching/src/serena/serena.hpp:97-115 | the walk returns to its start within its bound, labels exactly one more cycle and returns the weight difference on it |
| `Serena.FindCycles` | matching/src/serena/serena.hpp:92-118 | every input is labelled with its cycle, and the second matching is selected exactly on the cycles on which it is heavier |
| `Serena.Merge` | matching/src/serena/serena.hpp:74-128 | the result is the heaviest full matching in the union, the one closest to the first argument if there are several, also when it overwrites an argument |
| `SerenaSpec.SidesAgree` | matching/src/serena/serena.hpp:95-125 | a full matching in the union takes the same side all along a cycle |
| `SerenaSpec.HeaviestInUnion` | matching/src/serena/serena.hpp:116-125 | selecting the heavier side of every cycle, the first if they are equal, gives a heaviest full matching in the union, and among those the closest to the first argument |
| `SerenaSpec.MergeIsUnique` | matching/src/serena/serena.hpp:74-128 | there is only one such matching, so the contract determines the result of merging |
| `SerenaSpec.MergeExists` | matching/src/serena/serena.hpp:74-128 | every two full matchings have such a merge |
| `Availability.AvailabilityMap.Reset` | matching/src/availmap.hpp:27-31 | every slot is available |
| `Availability.AvailabilityMap.Set` | matching/src/availmap.hpp:33-37 | exactly the one slot becomes unavailable |
| `Availability.AvailabilityMap.Ffs` | matching/src/availmap.hpp:43-56 | the first available slot, or -1 exactly when there is none |
| `Availability.AvailabilityMap.And` | matching/src/availmap.hpp:58-65 | exactly the slots available in both |
| `SbQps.Scheduler.MatchElement` | matching/src/sb_qps.cc:207-224 | the cell is empty as asserted, and schedules, bitmaps and counters keep describing the same frame |
| `SbQps.Scheduler.Allocate` | matching/src/sb_qps.cc:172-178 | the pair goes to the least slot in which the input is unmatched and nobody is matched to the output, and nothing else changes; without such a slot nothing does |
| `SbQps.Scheduler.AcceptList` | matching/src/sb_qps.cc:152-194 | stopping at a zero output counter and skipping zero input counters changes nothing: the result is plain first fit on the schedules |
| `SbQps.Scheduler.Propose` | matching/src/sb_qps.cc:118-128 | each output considers exactly its first proposals up to the cutoff, by increasing input |
| `SbQps.Scheduler.Qps` | matching/src/sb_qps.cc:88-205 | a round on bitmaps and counters: every considered proposal gets the first slot that is open at its turn, or none if there is none, all other inputs keep theirs, and the redundant state stays consistent |
| `SbQps.Scheduler.Reset` | matching/src/sb_qps.cc:418-434 | an empty, consistent frame from any state |
| `SbQps.Scheduler.Schedule` | matching/src/sb_qps.cc:230-295 | the slots of the rounds are completed, free inputs getting the free outputs in order; bitmaps and counters agree with the schedules afterwards exactly when the rounds filled every slot; the result is what the selection selects: the first slot, the first heaviest, the merge of all in order, the first heaviest of the merged groups, empty if all of them are negative, or the merge of the merged groups; a selection other than the first outweighs every slot if no weight is negative, and otherwise unless it is the maximum over groups and all merged groups have a negative weight |
| `SbQps.UnfilledSlotDisagrees` | matching/src/sb_qps.cc:277-279 | a call after which they do not agree: one port, one slot and nothing proposed |
| `SbQpsPools.HandleArrivals` | matching/src/sb_qps.cc:72-78 | every input apportions its pool to its lengths |
| `SbQpsPools.Draw` | matching/src/sb_qps.cc:117-124 | for all random numbers, an input with packets proposes to the output that owns the slot the number is scaled down to, whose queue is nonempty; one without packets proposes to none |
| `SbQpsPools.ScheduleLengths` | matching/src/sb_qps.cc:230-295 | a call from queue lengths and random numbers: the result is selected from the completed slots of the rounds of these draws; every pair scheduled by the rounds has packets, and the result is a full matching that, unless it is the first, outweighs every slot |
| `SbQpsPools.CallIsUnique` | matching/src/sb_qps.cc:230-295 | lengths and random numbers determine the result of a call |
| `SbQpsSpec.FirstFitFits` | matching/src/sb_qps.cc:172-178 | the first fit is free for both ports and no earlier slot is |
| `Matchings.ConsideredExactly` | matching/src/sb_qps.cc:118-128 | the list of an output holds an input exactly if it proposes there and fewer than the cutoff lower inputs do, or the cutoff is negative; the list is increasing and no longer than the cutoff |
| `FirstFitRounds.PlaceIsPlaced` | matching/src/sb_qps.cc:172-178 | first fit puts a pair in the first slot open to both ports and changes nothing else |
| `FirstFitRounds.RoundIsFirstFit` | matching/src/sb_qps.cc:88-205 | in a round every considered proposal gets the first slot that was open from the start and has not been taken for its output by a lower input |
| `FirstFitRounds.RoundIsUnique` | matching/src/sb_qps.cc:88-205 | that leaves one outcome of a round |
| `FirstFitRounds.RoundsInTurn` | matching/src/sb_qps.cc:230-276 | the rounds of a call are such rounds one after the other, from an empty frame |
| `SbQpsSpec.RoundServesOrCrowds` | matching/src/sb_qps.cc:152-194 | after a round every considered proposal is scheduled, or its two ports together use at least as many slots as the frame has; nothing is unscheduled |
| `SbQpsSpec.RoundsServeOrCrowd` | matching/src/sb_qps.cc:88-205 | after all rounds of a call, every proposal considered in any of them is scheduled or crowded out |
| `SbQpsSpec.RoundsServeProposals` | matching/src/sb_qps.cc:88-205 | the rounds schedule nothing that was not proposed in one of them |
| `Selection.SelectHeaviest` | matching/src/sb_qps.cc:343-352 | the first of the heaviest slots: every earlier one is lighter, no later one is heavier |
| `Selection.MergeRange` | matching/src/sb_qps.cc:354-361 | the result is the merge of the slots of the range in order; it is full and at least as heavy as every one of them |
| `Selection.MixedMaxMerge` | matching/src/sb_qps.cc:365-385 | the result is empty exactly when all merged groups have a negative weight; otherwise it is the first heaviest of them and at least as heavy as every slot; it is not empty if no weight is negative |
| `Selection.GroupMergesAreUnique` | matching/src/sb_qps.cc:370-375 | the merged groups are determined by the frame, the weights and the group size |
| `Selection.NegativeGroupGivesNothing` | matching/src/sb_qps.cc:365-385 | a call with an empty result: one slot with one pair of weight -1 |
| `Selection.MixedMergeMerge` | matching/src/sb_qps.cc:387-405 | the merge of the merged groups; full and at least as heavy as every slot |
| `Selection.Select` | matching/src/sb_qps.cc:281-292 | what each selection selects, case by case |
| `Selection.SelectedIsUnique` | matching/src/sb_qps.cc:281-292 | each selection has one result |
| `Selection.GroupHolds` | matching/src/sb_qps.cc:366-375 | slot f is in group f / size, and the groups end with the frame |
| `Selection.FixAll` | matching/src/sb_qps.cc:277-279 | every slot becomes a full matching that keeps its pairs and gives the free inputs the free outputs in order |
| `Selection.CompletionIsUnique` | matching/src/serena/serena.hpp:44-71 | a partial matching has one such completion |
| `Selection.WeightComputation` | matching/src/sb_qps.cc:407-416 | the sum of the weights of the matched pairs |
| `FutureTree.TakerIsUnique` | matching/src/sb_qps.cc:501-509 | the thread that takes a future is its number without its lowest set bit, in the round of that bit |
| `FutureTree.TakerExists` | matching/src/sb_qps.cc:501-509 | every future but the first has such a thread |
| `FutureTree.NoFutureTakenTwice` | matching/src/sb_qps.cc:501-523 | in no interleaving is a future taken whose value is gone |
| `FutureTree.DeadlockFree` | matching/src/sb_qps.cc:501-523 | in every reachable state with an unfinished thread, some thread can step |
| `FutureTree.RunsAreBounded` | matching/src/sb_qps.cc:501-523 | in every interleaving the steps taken and the steps left add up to the number of threads times the steps of one thread, so every run ends |
| `FutureTree.CompleteRunsAgree` | matching/src/sb_qps.cc:458-525 | every complete interleaving ends with all threads done, every future but the first taken, and the same result in future 0: thread 0's schedule merged with those of threads 1, 2, 4, 8 and so on |
| `FutureTree.ResultInTurn` | matching/src/sb_qps.cc:501-523 | a single thread keeps its schedule; with more than p and up to 2p threads, p a power of two, the result is that of the first p threads merged with the schedule of thread p |
| `FutureTree.ResultDependsOn` | matching/src/sb_qps.cc:501-523 | the result depends on the schedules of threads 0, 1, 2, 4, 8 and so on only |
| `FutureTree.RunCompletes` | matching/src/sb_qps.cc:501-523 | every run can be continued until no thread can go on |
| `FutureMerge.ParallelResult` | matching/src/sb_qps.cc:458-525 | with full matchings, merged as `merge` does, every complete interleaving ends with a full matching in future 0 that is at least as heavy as the schedules of threads 0, 1, 2, 4, 8 and so on |
| `FutureMerge.OutweighsAllIff` | matching/src/sb_qps.cc:501-523 | the result is at least as heavy as every thread's schedule, and is the merge of them all, for all schedules and weights exactly when there are at most three threads or at most one port |
| `FutureMerge.LateCrossingIsLost` | matching/src/sb_qps.cc:501-523 | for any more threads and ports: schedules and weights for which it is neither |
| `ParallelSbQps.Compute` | matching/src/sb_qps.cc:458-500 | for all random numbers, the schedule of every thread is what a call selects on the lengths and its own random numbers, a full matching, and every complete interleaving on them ends as above |
| `ParallelSbQps.ComputeIsDetermined` | matching/src/sb_qps.cc:458-525 | lengths and random numbers determine what the main thread finds, whatever the interleaving |
| `Quantized.ShareIsFair` | matching/src/qp_sampler.cpp:282-285 | the number of slots of an output differs from its exact proportion by less than one |
| `Quantized.QuantizedProposer.Assign` | matching/src/qp_sampler.cpp:269-297 | slot c of the pool holds the output i with Sum(lengths[..i]) * size < (c + 1) * Sum(lengths) <= Sum(lengths[..i + 1]) * size, the assertion on the end holds, and the proposer is good exactly when there are packets |
| `Quantized.PoolIsFair` | matching/src/qp_sampler.cpp:281-292 | the pool is in output order, each output has its exact proportion up to less than one slot, and empty queues have no slot |
| `Quantized.OwnerIsUnique` | matching/src/qp_sampler.cpp:281-292 | every slot has one such output |
| `Quantized.QuantizedProposer.Sample` | matching/src/qp_sampler.cpp:305-311 | every random number yields the pool entry at random / ratio, or the last entry if that is beyond the pool, or -1 when there are no packets |
| `Ipoc.Scheduler.HandleArrivals` | src/scheduler/miscellaneous.cc:72-81 | the lists stay free of duplicates and gain exactly the listed arrivals |
| `Ipoc.Scheduler.Match` | src/scheduler/miscellaneous.cc:88-107 | every input with packets proposes the longer of its two sampled queues, the second if they are equal; with displacement, each output ends with the first of its longest proposers in the order, each input with its proposal or nothing |
| `Ipoc.Scheduler.HandleDepartures` | src/scheduler/miscellaneous.cc:109-116 | exactly the matched queues with a single packet leave the lists |
| `Ipoc.Scheduler.Schedule` | src/scheduler/miscellaneous.cc:67-117 | a slot keeps the lists equal to the nonempty queues after the departures, exactly the inputs with packets propose, the longer of their two samples, and each output ends with the first of its longest proposers |
| `Ipoc.Scheduler.Init` | src/scheduler/miscellaneous.cc:118-124 | the lists hold exactly the nonempty queues |
| `Ipoc.ProposalIsLonger` | src/scheduler/miscellaneous.cc:93-98 | the proposal is one of the two samples, as long as both, and the second if they are equally long |

## Left out

- `Switches.GIQSwitch.Switching`: the scheduler is a function of its own state, the arrivals and the lengths, so that the theorems hold for every one; `ISlipSwitch` and `SwitchingCycles` join the scheduler classes to the simplified switch.
- `Simulator.IQSwitchSimulator.SimulateOn`: the scheduler uses an output once at most, which the assertion of one packet per channel needs.
- `ISlip.Scheduler.Schedule`: pointers are taken to be nonnegative and in range, as the modulo expressions assume.
- `Qps.Scheduler.Sampling`: the uniform draw lies strictly below the total and is exact; rounding of `double` is not modelled.
- `Quantized.QuantizedProposer.Assign`: the accumulated proportion is exact, and lengths are nonnegative; with rounding the last slots are filled by the closing loop instead.
- `Serena.FixMatching`: entries are ports of the vector; for larger outputs the code indexes out of bounds.
- `SbQps.Scheduler.Schedule`: completing and weighing index outputs by inputs, out of bounds when there are fewer outputs than inputs or a proposal is for an output beyond them, so neither is the case; a frame fits the 1024 bits of a map.
- `SbQpsPools.ScheduleLengths`: for the same reason nothing is queued for an output beyond the number of inputs.
- `ParallelSbQps.Compute`: the threads schedule one after the other, which makes no difference as they share no state; their interleaving is that of `FutureTree`, with merging as a function that meets the contract of `Serena.Merge`.
- `SbQpsPools.Draw`: all rounds are drawn before the first is scheduled, which makes no difference as drawing and scheduling share no state.
- Vectors and packets as values: aliasing between vectors, and the memory of packets, are not modelled, except in `Serena`.
- Integer widths: all counters are unbounded.
- The `rqps_serena` mode of small-batch QPS, its switched-off bitset variant and virtual departures.
- `QPS::reset` and the other resets that refill vectors with constants.
- The uniform mode of `src/scheduler/qp_sampler.cpp`, whose search compares with raw leaf counts, and `Queue_Sampler::remove`.
- `sLQF`, `Linear_Priority_Queue`, the round-robin sampler and `RandomizedEdgeColoringCAggarwal`.
- Maximum-weight matching, which calls a library that is not part of this model.
- Probabilities: proportionality is stated as exact intervals, not as distributions.
- Stopping rules, statistics, traffic patterns, configuration, factories, display and timing.
