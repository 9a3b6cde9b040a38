# A model of Awkernel's asynchronous core

Awkernel is an operating system kernel whose work is done by asynchronous tasks. This project
models the parts of it in which several pieces have to fit together, and proves what they
guarantee over every run:

- **DAGs of reactors.** Nodes joined by topics, each receiving its inputs, computing and sending
  its outputs, job after job; the checks that accept a DAG; the deadlines that all nodes of a job
  share; and the start, when reactors are spawned one by one and those spawned already run.
  (`DagGraph`, `DagAccept`, `DagValidate`, `DagTopology`, `DagVerdict`, `DagDeadlines`, `DagObject`, `DagRun`,
  `DagInvariant`, `DagLag`, `DagProgress`, `DagTheorems`, `DagFree`, `DagSpawn`, `DagLoss`,
  `DagRunaway`, `DagStall`, `DagBoot`, `DagResults`)
- **Publish and subscribe.** Bounded queues with flow control, and the wakers parked on them.
  (`RingQueue`, `Subscriber`, `PubSub`, `PubSubRun`, `PubSubTheorems`)
- **Session types.** Two endpoints that follow dual protocols over two untyped channels.
  (`SessionTypes`, `SessionRun`, `SessionObject`)
- **Timers.** A delta list with a moving base time as a queue of absolute deadlines, sleeps and
  periodic intervals, and whole runs of the three together. (`Timers`, `TimersRun`, `TimeInterval`,
  `SleepRun`)
- **Waking and polling tasks** without preemption. (`TaskWake`, `TaskTheorems`)
- **DMA scatter/gather lists**, the **bitmap-indexed priority queue** and the **PCIe bus walk**.
  (`Bits`, `DmaMap`, `DmaSplit`, `PriorityQueue`, `PcieWalk`)

Shared data is modelled the way the source keeps it: objects whose methods change their fields are
classes, loops are loops, and each such method is proved against a function on values. Whole
runs are sequences of states joined by steps, where a step is one critical section of the source
and any interleaving of steps is a run.

Where comments and code differ, the model follows the code: times are called monotonically
increasing, but elapsed times are computed so that the clock may go back, and so the timers are
proved for any sequence of readings.

Some properties one would expect do not hold without a condition. They are stated with the exact
condition:

- A DAG is accepted exactly if its registrations fit, its graph has no cycle, one source and one sink,
  and each of its topics joins one publisher to one other subscriber (`DagVerdict.AcceptedExact`);
  otherwise it is refused with the first rule it breaks (`DagVerdict.VerdictExact`).
- A topic with flow control can come to a halt, with the queue empty and every task asleep,
  exactly when it has more publishers than queue slots (`PubSubTheorems.NeverStuckExact`). Between
  the publishers of an accepted DAG this cannot happen, because each topic has one.
- A DAG is accepted even if its source is not a periodic reactor. Such a source is spawned in its
  turn and runs on without ticks. No message of a DAG is ever lost exactly if its source is periodic
  or registered last (`DagResults.NoMessageLost`). As long as none is lost, the lag is bounded,
  deadlines are retained exactly and nobody deadlocks (`DagResults.LagAndRetention`,
  `DagResults.DeadlockFree`). Whatever the order of registration, the lag is bounded exactly if the
  source is periodic or alone (`DagBoot.KeepsUpExact`); a source that is registered before the
  reactors it sends to runs away from them (`DagResults.LagFails`), and a fork that is registered
  after its join can stop everything (`DagStall.Stalls`).
- Between two ticks a DAG comes to rest exactly if its source is periodic
  (`DagResults.PipelineDrains`).
- In no run of an accepted DAG does a node execute a released job without that job's deadline
  exactly if the source is under no deadline scheduler, or every node is under one and the source is
  periodic or alone (`DagResults.NoStaleDeadline`). A scheduler that makes no lookup ends a yield
  with the deadline still missing (`DagTheorems.StaleRun`), and a source that is not periodic sends
  jobs before it has released them (`DagFree.FreeStaleRun`).
- Every lookup of a deadline finds one exactly if no reactor is under a deadline scheduler or the
  sink was registered as a sink reactor (`DagResults.LookupsExact`).
- Session progress holds exactly for protocols whose recursion is contractive and whose variables
  are all bound (`SessionRun.ProgressExact`, `SessionRun.ProgressNeedsContractive`,
  `SessionRun.ProgressNeedsBound`).
- An accepted DAG finds its source task exactly when its only source is a periodic reactor; a DAG
  without one is accepted too (`DagTopology.AcceptedSourceTask`,
  `DagTopology.AcceptedWithoutSourceTask`).
- A sleep is due when it was asked for exactly when the time from the base time fits in 64 bits
  (`Timers.SleepDueExact`, and `Timers.CutShort` beyond them), and the order of all sleepers that
  ever fire is by deadline as long as no arrival is due before the last one that fired
  (`TimersRun.ArrivalOrderExact`).
- The skipping interval goes past the present exactly when the tick number fits in 32 bits
  (`TimeInterval.SkipExact`, and `TimeInterval.SkipFallsBehind` beyond them).
- Within 64 bits, the sleep of an interval ends no earlier than its target exactly if the reading
  that measured it is not past the time at which its timer is set, or the target is not
  (`SleepRun.TimelyExact`, and `SleepRun.BackwardTick` for a clock that goes back in between).
- A mapped buffer is loaded directly exactly if its chunks can be cut into at most as many segments as
  the device takes (`DmaSplit.DirectExact`).
- A direct DMA load respects the segment size limit for all buffers exactly when the limit is no
  less than the longest chunk (`DmaMap.MaxSegmentExact`, for constraints that leave room in the
  word), and after any loads and unloads a map counts as bounced exactly when some load since the
  last unload was bounced (`DmaMap.BouncedExact`), so a direct load may count too
  (`DmaMap.DirectAfterBounce`).

## Model

| member | source | states |
|---|---|---|
| `DagGraph.BuildExact` | awkernel_async_lib/src/dag.rs:219-283 | Adding nodes one at a time yields each edge exactly as often as it belongs: for a topic match of two nodes, as often as the node registered first names the topic; for a match of a node with itself, as often as it names the topic on both sides; and otherwise never |
| `DagGraph.BuildIsTopicMatch` | awkernel_async_lib/src/dag.rs:219-283 | For duplicate-free topic lists there is an edge between two distinct nodes for a topic if and only if one publishes it and the other subscribes to it, and then exactly one |
| `DagGraph.BuildInRange` | awkernel_async_lib/src/dag.rs:219-283 | Every edge of a built graph joins nodes of the graph |
| `DagObject.CollectEdges` | awkernel_async_lib/src/dag.rs:257-276 | The loop over the existing nodes collects exactly the edges that registration of the new node adds |
| `DagObject.Dag.constructor` | awkernel_async_lib/src/dag.rs:606-632 | A new DAG has no nodes, edges, finished jobs or deadlines |
| `DagObject.Dag.AddNodeWithTopicEdges` | awkernel_async_lib/src/dag.rs:219-283 | Registration appends the node, keeps the graph equal to the one built from all registered nodes, puts repeated topics on record, and touches nothing else |
| `DagObject.Dag.GetOrReleaseAbsoluteDeadline` | awkernel_async_lib/src/dag.rs:481-514 | The lookup of the next job's deadline: a known deadline is answered, an unknown one is answered with the one the wake proposes, which is entered exactly if the node has no inputs and the wake releases; the node remembers the job exactly if its deadline is then known, and nothing else changes |
| `DagObject.Dag.CheckStaleDeadline` | awkernel_async_lib/src/dag.rs:519-528 | A deadline is stale exactly when the job is released and the node's last wake did not obtain its deadline |
| `DagObject.Dag.FinishJobOf` | awkernel_async_lib/src/dag.rs:531-555 | Finishing counts the job and keeps, unchanged, exactly the deadlines from the slowest node's job on, except that beyond the cap of n * 11 + 1 the oldest go |
| `DagObject.FindFirstKey` | awkernel_async_lib/src/dag.rs:552-554 | The smallest key of a non-empty deadline map |
| `DagObject.PopBeyondCap` | awkernel_async_lib/src/dag.rs:551-554 | The eviction loop keeps as many entries as the cap allows and no fewer, having removed the smallest keys only |
| `DagObject.OldestUnfinished` | awkernel_async_lib/src/dag.rs:540-545 | The smallest number of finished jobs over all nodes |
| `DagObject.Dag.CheckForDuplicates` | awkernel_async_lib/src/dag.rs:829-855 | The duplicate check passes if and only if every node's topic lists are duplicate-free |
| `DagValidate.ValidateEdgeConnect` | awkernel_async_lib/src/dag.rs:860-887 | The degree check passes if and only if every node has as many edges as topics each way; otherwise it names the first failing node, and a missing publisher before a missing subscriber |
| `DagValidate.ValidateSinglePublisherPerTopic` | awkernel_async_lib/src/dag.rs:895-918 | The topics reported are exactly those on more than one edge, and none is reported if and only if every topic is on one edge at most |
| `DagAccept.ValidationExact` | awkernel_async_lib/src/dag.rs:682-705 | The degree, duplicate and single-publisher checks pass together if and only if no node repeats a topic or subscribes to its own and each topic in use has exactly one publisher and exactly one subscriber |
| `DagAccept.ChecksImplyPaired` | awkernel_async_lib/src/dag.rs:829-918 | The pigeonhole half: the three checks leave one publisher and one subscriber per topic |
| `DagTopology.ConnectivityIsImplied` | awkernel_async_lib/src/dag.rs:747-779 | An acyclic graph with one source at most is connected, so the first structural check never decides alone |
| `DagTopology.UniqueSource` | awkernel_async_lib/src/dag.rs:747-779 | An acyclic graph with one source at most has exactly one |
| `DagTopology.WalkFromSource` | awkernel_async_lib/src/dag.rs:747-779 | Every node of an acyclic graph is reached from some source by a walk of fewer edges than there are nodes |
| `DagTopology.AcceptedTopology` | awkernel_async_lib/src/dag.rs:682-705 | The configuration of an accepted DAG is valid and sound: each node is reached from the source by fewer than n links, and links climb in rank; the rules that it rests on are made exact by `DagVerdict.AcceptedExact` |
| `DagVerdict.WalkToSink` | awkernel_async_lib/src/dag.rs:747-779 | From every node of an acyclic graph a walk of fewer edges than there are nodes leads to a node without outgoing edges |
| `DagVerdict.UniqueSink` | awkernel_async_lib/src/dag.rs:747-779 | An acyclic graph with one sink at most has exactly one |
| `DagVerdict.AcceptedSink` | awkernel_async_lib/src/dag.rs:771-776 | An accepted DAG has exactly one sink, and it is reached from every node |
| `DagVerdict.AcceptedExact` | awkernel_async_lib/src/dag.rs:682-705 | A DAG is accepted if and only if its registrations are well formed and of matching arity, one of them is not periodic, its graph has no cycle, exactly one source and exactly one sink, no node repeats a topic or subscribes to its own, and each topic has exactly one publisher and one subscriber |
| `DagVerdict.VerdictExact` | awkernel_async_lib/src/dag.rs:682-779 | The verdict on a DAG is a given one if and only if that is the first broken rule in the order arity, pending tasks, connectivity, cycles, sources, sinks, degrees, repeated topics, publishers, or acceptance and none is broken |
| `DagTopology.AcceptedIsPaired` | awkernel_async_lib/src/dag.rs:682-705 | In an accepted DAG each topic joins one publisher to one subscriber |
| `DagTopology.AcceptedSourceTask` | awkernel_async_lib/src/dag.rs:366-382 | At most one periodic reactor is registered in an accepted DAG, it is the source, and spawning finds a source task if and only if the source is periodic |
| `DagTopology.AcceptedWithoutSourceTask` | awkernel_async_lib/src/dag.rs:920-951 | A DAG that passes every check and whose spawning finds no source task |
| `DagInvariant.NextFlow` | awkernel_async_lib/src/dag.rs:986-1022 | Every step of every reactor keeps, on each link, queued = sent - taken with the queue in job order, and each sleeper registered exactly where it waits |
| `DagLag.NextInv` | awkernel_async_lib/src/dag.rs:481-555 | Every step, with or without a deadline lookup, keeps the deadline map equal to the released jobs that some node has not finished, and each executing node under a deadline scheduler in possession of its released job's deadline; no released deadline ever changes |
| `DagResults.LagAndRetention` | awkernel_async_lib/src/dag.rs:531-555 | In every run of an accepted DAG of n nodes, from its spawning on and as long as no message has been lost, each node is at most (n-1)*(q+1) jobs behind the source, at most that many deadlines plus one are kept, which is below the cap, and the kept ones are exactly the released jobs some node has not finished, so eviction never drops a live deadline; nothing is lost if the source is periodic or registered last |
| `DagTheorems.LagByDistance` | awkernel_async_lib/src/dag.rs:548-551 | In every run in which all reactors have subscribed, the lag along any walk is at most its number of links times (q+1) |
| `DagTheorems.DeadlineAgreement` | awkernel_async_lib/src/dag.rs:481-514 | In every run in which all reactors have subscribed, any two wakes that ask for the same job, by the source's tick or otherwise, get the same deadline once it is released, whichever nodes ask and however late |
| `DagTheorems.UnreleasedAnswer` | awkernel_async_lib/src/dag.rs:481-514 | In every run in which all reactors have subscribed, a lookup of a job that is not released is answered with the deadline the wake proposes, and the job is released with it if and only if the source asked and the wake releases |
| `DagTheorems.NeverReleasedAgain` | awkernel_async_lib/src/dag.rs:481-546 | In every run in which all reactors have subscribed, a job whose deadline was dropped is never released again |
| `DagResults.NoStaleDeadline` | awkernel_async_lib/src/dag.rs:1013-1021 | In all runs of an accepted DAG, every job whose deadline is known is executed by a node holding it, if and only if the source is under no deadline scheduler, or all nodes are under one and the source is periodic or alone |
| `DagTheorems.ExecutionDeadline` | awkernel_async_lib/src/scheduler/clustered_edf.rs:39-62 | With a periodic source the deadline of the job a node executes is known if and only if the source releases jobs, and then the node holds it if and only if it is under a deadline scheduler; any source holds the deadline of its own job if it is known |
| `DagTheorems.StaleRun` | awkernel_async_lib/src/dag.rs:1013-1021 | For every node under no deadline scheduler, while a periodic source is under one, a run in which it executes a released job without holding that job's deadline |
| `DagFree.FreeStaleRun` | awkernel_async_lib/src/dag.rs:1008-1022 | With a source that is not periodic and is under a deadline scheduler, and at least one more node, a run in which a node executes a known job without its deadline, whatever the schedulers: it received the job before the source released it |
| `DagTheorems.JobAlignment` | awkernel_async_lib/src/pubsub.rs:994-1033 | In every run in which all reactors have subscribed, and over any fork and join shape, all inputs of a node's k-th job derive from the source's k-th firing, each input holding the jobs from the next to be taken on in order and without a gap, so mismatched periods are never reported |
| `DagInvariant.ReceiveExact` | awkernel_async_lib/src/pubsub.rs:994-1033 | A job takes the period index of the first message it receives, and a later message is reported if and only if its own differs |
| `DagResults.DeadlockFree` | awkernel_async_lib/src/dag.rs:986-1022 | In no state of a run of an accepted DAG in which no message has been lost do all reactors sleep, and when none but the source can move every fired job is finished everywhere and all queues are empty |
| `DagResults.PipelineDrains` | awkernel_async_lib/src/dag.rs:1065-1094 | In all runs of an accepted DAG the reactors take boundedly many steps between two ticks, and one is possible until every fired job is finished everywhere and all queues are empty, if and only if the source is periodic |
| `DagTheorems.CanDrain` | awkernel_async_lib/src/dag.rs:1065-1094 | From every state of a run the pipeline can go on without a new job of the source until it is drained, with the same jobs fired and released |
| `DagTheorems.DrainsInRun` | awkernel_async_lib/src/dag.rs:986-1022 | With either kind of source, until the source takes up its next job the reactors take boundedly many steps and can take one until all is drained |
| `DagFree.Restless` | awkernel_async_lib/src/dag.rs:986-1022 | With a source that is not periodic there are runs of any number of steps without a tick |
| `DagSpawn.Lossless` | awkernel_async_lib/src/dag.rs:920-936 | While reactors are being spawned, and as long as no message has been lost, the reactors are as in a run in which all had subscribed beforehand |
| `DagSpawn.SourceLastOrderly` | awkernel_async_lib/src/dag.rs:938-951 | If the source is spawned last, no message is ever lost and no job begins before it is spawned |
| `DagLoss.NothingLostExact` | awkernel_async_lib/src/dag.rs:938-951 | In all runs no message is lost if and only if the source is the last reactor to be spawned |
| `DagResults.NoMessageLost` | awkernel_async_lib/src/dag.rs:920-951 | In all runs of an accepted DAG no message is lost if and only if its source is periodic or registered last |
| `DagBoot.KeepsUpExact` | awkernel_async_lib/src/dag.rs:548-551 | In all orders of registration the lag is bounded and deadlines are retained exactly, if and only if the source is periodic or alone |
| `DagResults.LagFails` | awkernel_async_lib/src/dag.rs:928-936 | For every accepted DAG whose source is not periodic and is registered before all reactors it sends to, a run that exceeds the bound on the lag and in which a live deadline has been evicted |
| `DagStall.Stalls` | awkernel_async_lib/src/dag.rs:928-936 | Three reactors of which one joins the source and another that is spawned later: a run in which all of them sleep for ever |
| `DagBoot.RestsExact` | awkernel_async_lib/src/dag.rs:986-1094 | The same condition for draining over every rooted and acyclic configuration and every order of spawning |
| `DagBoot.StaleFreeExact` | awkernel_async_lib/src/scheduler/gedf.rs:67-92 | The same condition for stale deadlines over every rooted and acyclic configuration and every order of spawning |
| `DagResults.LookupsExact` | awkernel_async_lib/src/scheduler/gedf.rs:211-230 | In all runs of an accepted DAG every deadline lookup finds a known deadline or the sink's relative one, if and only if no reactor is under a deadline scheduler or the sink was registered as a sink reactor |
| `DagProgress.WaitDescends` | awkernel_async_lib/src/dag.rs:1126-1161 | A blocked read waits for a node of lower rank that is at no later job, a blocked write for a node at a strictly earlier job, so waiting never goes in a circle |
| `RingQueue.RingQ.constructor` | awkernel_lib_verified/src/ringq.rs:15-25 | A new ring queue of the given size is empty |
| `RingQueue.RingQ.Push` | awkernel_lib_verified/src/ringq.rs:48-62 | Appends to the queue's contents, or hands the data back and changes nothing exactly when full; slots outside the live window stay empty |
| `RingQueue.RingQ.Pop` | awkernel_lib_verified/src/ringq.rs:65-80 | Takes the oldest element and leaves the rest in order; slots outside the live window stay empty |
| `RingQueue.RingQ.Head` | awkernel_lib_verified/src/ringq.rs:84-86 | The oldest element without taking it |
| `RingQueue.RingQ.Collect` | awkernel_lib_verified/src/ringq.rs:89-126 | Iteration yields exactly the contents, oldest first, and never meets an empty slot |
| `PubSub.InnerSubscriber.constructor` | awkernel_async_lib/src/pubsub.rs:129-137 | A new subscriber is open, with an empty queue and nobody parked |
| `PubSub.InnerSubscriber.WakePublishers` | awkernel_async_lib/src/pubsub.rs:210-216 | Wakes parked publishers in order of arrival, as many as there are free slots and no more |
| `PubSub.InnerSubscriber.RecvOrRegisterWaker` | awkernel_async_lib/src/pubsub.rs:200-222 | A receive refines the value step: the oldest message and a wake per free slot, or the receiver parked |
| `PubSub.InnerSubscriber.TryRecv` | awkernel_async_lib/src/pubsub.rs:226-243 | A receive that never parks, and that wakes publishers even when it finds nothing |
| `PubSub.InnerSubscriber.Deliver` | awkernel_async_lib/src/pubsub.rs:341-386 | What a send does to one subscriber under its lock: skip, park or push, with and without flow control |
| `PubSub.InnerSubscriber.Close` | awkernel_async_lib/src/pubsub.rs:732-749 | Closing closes the subscriber, wakes every parked publisher in order of arrival and leaves the queue and its receiver alone |
| `PubSub.ServeAll` | awkernel_async_lib/src/pubsub.rs:341-387 | The loop over the pending subscribers leaves exactly those not yet served, changes the others and wakes receivers as the value step says, which `Subscriber.PollSendExact` and `Subscriber.PollSendWakes` make exact |
| `PubSub.Sender.Poll` | awkernel_async_lib/src/pubsub.rs:306-398 | A poll serves the snapshot's subscribers in turn and wakes their receivers as the value step says, resumes after a park with those that were left, and is ready exactly when none is left |
| `Subscriber.PollSendExact` | awkernel_async_lib/src/pubsub.rs:306-398 | Every subscriber before the stop holds the message as its newest exactly once and has its receiver taken off the record if there was room, or is closed and untouched; without flow control and room the oldest message makes way; the one at the stop has the sender last in line; the rest are untouched |
| `Subscriber.PollSendWakes` | awkernel_async_lib/src/pubsub.rs:341-398 | A poll wakes exactly the receivers waiting at the subscribers it serves that are open and have room, each once and in the order of the subscribers |
| `PubSubRun.NextInv` | awkernel_async_lib/src/pubsub.rs:200-222 | Every step of any publisher or receiver keeps received ++ queued = pushed, each publisher's messages complete and in order, and each sleeper registered exactly where it waits |
| `PubSubTheorems.ExactlyOnceInOrder` | awkernel_async_lib/src/pubsub.rs:306-398 | In every run, with any number of publishers and subscribers and any re-polls, each open subscriber has received or still queues each publisher's messages exactly once and in the order sent; a closed one has a prefix of them |
| `PubSubTheorems.NoLostWakeup` | awkernel_async_lib/src/pubsub.rs:176-222 | In every run a receiver sleeps only on an empty queue with its waker registered, a registered receiver means an empty queue, and a publisher sleeps only in the line of the open subscriber it is serving, where it stands once |
| `PubSubTheorems.ShutExact` | awkernel_async_lib/src/pubsub.rs:732-749 | Shutting a subscriber closes it, keeps what it queues and has received, wakes exactly the publishers that were serving it, and touches no other subscriber |
| `PubSubTheorems.ClosedForGood` | awkernel_async_lib/src/pubsub.rs:341-347 | In every run a closed subscriber never changes again |
| `PubSubTheorems.SleeperIsServed` | awkernel_async_lib/src/pubsub.rs:341-386 | With no more publishers than slots, a sleeping publisher always waits for an open receiver that is awake and has a message to take |
| `PubSubTheorems.NeverStuckExact` | awkernel_async_lib/src/pubsub.rs:350-380 | Topics with a given number of publishers and slots can never reach a state where every publisher sleeps and no open receiver is awake, if and only if there are no more publishers than slots |
| `PubSubTheorems.StuckReachable` | awkernel_async_lib/src/pubsub.rs:350-380 | With more publishers than slots, a run to a state where the queue is empty and every task sleeps for ever |
| `PubSubTheorems.SpuriousPollStalls` | awkernel_async_lib/src/pubsub.rs:350-357 | One poll of a parked publisher that nobody woke makes it stand in line twice and can halt even one publisher with one slot |
| `SessionTypes.DualInvolutive` | awkernel_async_lib/src/session_types.rs:149-179 | The dual of the dual of a protocol is the protocol |
| `SessionTypes.DualUnfold` | awkernel_async_lib/src/session_types.rs:393-413 | Entering a recursion and following a variable commute with taking the dual |
| `SessionTypes.StepInv` | awkernel_async_lib/src/session_types.rs:219-279 | Every step of either endpoint keeps the two in dual position up to the messages in flight, which go one way only |
| `SessionTypes.TryReadExact` | awkernel_async_lib/src/session_types.rs:103-108 | A read that does not wait does what a waiting one does as soon as a message is there, and otherwise hands the channel back and changes nothing, where the waiting one waits or meets a closed peer |
| `SessionRun.Fidelity` | awkernel_async_lib/src/session_types.rs:93-108 | For every protocol and interleaving, each message is read at exactly the type or label at which it was written, no operation meets a closed peer, and one of the two queues is empty |
| `SessionRun.ReadOnceInOrder` | awkernel_async_lib/src/session_types.rs:93-108 | What was written each way is what was read followed by what is queued |
| `SessionRun.NeverBothWaiting` | awkernel_async_lib/src/session_types.rs:231-250 | Two endpoints never wait for each other |
| `SessionRun.CleanClose` | awkernel_async_lib/src/session_types.rs:192-206 | An endpoint that has closed has read everything written to it, and when both have closed nothing is left in the queues |
| `SessionRun.Progress` | awkernel_async_lib/src/session_types.rs:361-413 | For protocols with contractive recursion and no unbound variable, as long as not both endpoints have closed, finitely many unfoldings let one of them write, read or close |
| `SessionRun.ProgressExact` | awkernel_async_lib/src/session_types.rs:361-413 | In all runs of a protocol one endpoint can always move until both have closed, if and only if its recursion is contractive and all its variables are bound |
| `SessionRun.ProgressNeedsContractive` | awkernel_async_lib/src/session_types.rs:393-413 | For every protocol whose recursion is not contractive there is a run to a state with both endpoints open in which no number of unfoldings lets either do anything |
| `SessionRun.ProgressNeedsBound` | awkernel_async_lib/src/session_types.rs:169-175 | For every protocol with an unbound variable, which has a dual all the same, there is a run to such a state |
| `SessionRun.ActionProgress` | awkernel_async_lib/src/action.rs:142-168 | Both sides of the action protocol always make progress until they close |
| `SessionObject.Channel.SendNoYield` | awkernel_async_lib/src/channel/unbounded.rs:70-87 | A send on an open channel appends and wakes the waiting receiver; on a terminated channel it fails and changes nothing |
| `SessionObject.Channel.PollRecv` | awkernel_async_lib/src/channel/unbounded.rs:176-191 | A receive takes the oldest value even after termination, fails on a terminated empty channel, and otherwise parks |
| `SessionObject.Channel.DropSender` | awkernel_async_lib/src/channel/unbounded.rs:97-104 | Dropping the sender terminates the channel, keeps what is queued, and wakes the waiting receiver |
| `SessionObject.Channel.DropReceiver` | awkernel_async_lib/src/channel/unbounded.rs:162-166 | Dropping the receiver terminates the channel |
| `SessionObject.Endpoint.Write` | awkernel_async_lib/src/session_types.rs:219-279 | A send or selection appends the message to the endpoint's outgoing channel and goes on with what follows the value, or with the branch it selects, unless the channel is terminated |
| `SessionObject.Endpoint.Read` | awkernel_async_lib/src/session_types.rs:231-250 | A receive or offer takes the oldest message of the endpoint's incoming channel and goes on with what follows the value, or with the branch the label names; it waits on an empty channel and fails on a terminated empty one |
| `SessionObject.Endpoint.Close` | awkernel_async_lib/src/session_types.rs:192-206 | Closing terminates both channels and keeps what is queued in them |
| `SessionObject.NewSession` | awkernel_async_lib/src/session_types.rs:466-474 | The two endpoints of a new session hold dual protocols over the same two channels, crossed |
| `Timers.InsertDelta` | awkernel_lib_verified/src/delta_list.rs:58-80 | For every base time, the absolute times after insertion are those before with the new one put behind every one not later |
| `Timers.InsertStable` | awkernel_lib_verified/src/delta_list.rs:58-80 | Insertion moves no other entry: the new one lands after all due no later and before all due later |
| `Timers.AbsoluteSorted` | awkernel_lib_verified/src/delta_list.rs:10-18 | The absolute times of a delta list are sorted and not before its base |
| `Timers.SleepDueExact` | awkernel_async_lib/src/scheduler.rs:357-366 | A sleep is due at the time asked for if and only if the time from the base to it fits in 64 bits, and at the base plus its lowest 64 bits in any case |
| `Timers.UntilDueExact` | awkernel_async_lib/src/scheduler.rs:369-376 | A sleep until a given time is due then, or at the base time if that is later, if and only if the time from the base to it fits in 64 bits, and otherwise at the last time that fits |
| `Timers.CutShort` | awkernel_async_lib/src/scheduler.rs:357-376 | With nobody asleep, a sleep of 2^64 is due at once, and a sleep until 2^64 from now one too early |
| `Timers.SleepingTasks.constructor` | awkernel_async_lib/src/scheduler.rs:349-354 | A new list is empty with base time zero |
| `Timers.SleepingTasks.Sleep` | awkernel_async_lib/src/scheduler.rs:357-366 | Adds a sleeper at its absolute due time and moves no other |
| `Timers.SleepingTasks.SleepUntil` | awkernel_async_lib/src/scheduler.rs:369-376 | Adds a sleeper for a given time, or for the base time if that has passed, and moves no other |
| `Timers.SleepingTasks.Wake` | awkernel_async_lib/src/scheduler.rs:379-396 | The loop fires exactly the sleepers of the value step in order and moves the base time along |
| `Timers.SleepingTasks.TimeToWait` | awkernel_async_lib/src/scheduler.rs:399-408 | Nothing exactly when nobody sleeps, otherwise the time from the 64-bit elapsed time to the first deadline, or zero if that has passed |
| `TimersRun.WakePrefix` | awkernel_async_lib/src/scheduler.rs:379-396 | A wake call fires a prefix of the pending sleepers and loses none |
| `TimersRun.FiresOnceNeverEarly` | awkernel_async_lib/src/scheduler.rs:343-409 | In every run each sleeper has fired or is pending, exactly once and with its own deadline, and none has fired before a reading that was made had reached that deadline, even if the clock runs backwards |
| `TimersRun.WakeServesAllDue` | awkernel_async_lib/src/scheduler.rs:379-396 | A wake call whose readings are all at or past a deadline fires its sleeper, so each fires during the first wake call begun at or after its deadline |
| `TimersRun.StableDeadlineOrder` | awkernel_async_lib/src/scheduler.rs:343-409 | While the clock goes forward, the whole history fires in deadline order, equal deadlines in order of arrival |
| `TimersRun.ArrivalOrderExact` | awkernel_async_lib/src/scheduler.rs:357-376 | An arrival keeps that order if and only if it is due no earlier than the last sleeper that fired |
| `TimersRun.ClockBackwardReorders` | awkernel_lib/src/time.rs:79-90 | A run in which the clock goes back while nothing sleeps and a later arrival fires for an earlier deadline |
| `TimeInterval.Sleep.constructor` | awkernel_async_lib/src/sleep_task.rs:83-86 | A new sleep has set no timer |
| `TimeInterval.Sleep.Poll` | awkernel_async_lib/src/sleep_task.rs:30-63 | The first poll sets the only timer, and the end of the sleep is reported from then on |
| `TimeInterval.Sleep.Fire` | awkernel_async_lib/src/sleep_task.rs:47-58 | Only a sleep that still waits finishes, and it wakes its task once |
| `TimeInterval.Sleep.Cancel` | awkernel_async_lib/src/sleep_task.rs:68-78 | A sleep that has not finished is cancelled and then never wakes its task |
| `TimeInterval.Sleep.Drop` | awkernel_async_lib/src/sleep_task.rs:98-106 | Dropping cancels a sleep that waits |
| `TimeInterval.Interval.constructor` | awkernel_async_lib/src/time_interval.rs:105-120 | The first tick is due at the start |
| `TimeInterval.Interval.PollNext` | awkernel_async_lib/src/time_interval.rs:139-176 | A tick is reported for its target when the sleep it is told about has ended, and the next target follows the missed-tick behaviour |
| `TimeInterval.SkipExact` | awkernel_async_lib/src/time_interval.rs:160-165 | After a tick seen in time the next one of the grid follows; after a late one skipping goes to the first tick of the grid after the present if and only if its number fits in 32 bits, to which it is cut in any case |
| `TimeInterval.SkipFallsBehind` | awkernel_async_lib/src/time_interval.rs:160-165 | For every period below 2^32, a reading so late that the tick number is cut to zero and the next target is the tick just reported |
| `TimeInterval.DelayRestarts` | awkernel_async_lib/src/time_interval.rs:156-169 | Delaying counts each period from the time the tick was seen, if that was late, and from its target otherwise |
| `TimeInterval.BurstNeverDrifts` | awkernel_async_lib/src/time_interval.rs:158-169 | However late ticks are seen, the k-th is due k periods after the first |
| `TimeInterval.SkipStaysOnGrid` | awkernel_async_lib/src/time_interval.rs:158-169 | Skipping stays on the grid of the first tick for ever |
| `SleepRun.NextInv` | awkernel_async_lib/src/sleep_task.rs:30-106 | Every step of sleeps, intervals and wake calls keeps each sleep waiting exactly until its timer fires, its task woken exactly if it finished, and each interval waiting for a sleep of its own |
| `SleepRun.TicksNeverEarly` | awkernel_async_lib/src/time_interval.rs:139-176 | In every run in which the clock does not go back between the two readings that measure an interval's sleep and set its timer, and the times fit in 64 bits, no interval reports a tick before the clock has read its target |
| `SleepRun.TicksExact` | awkernel_async_lib/src/time_interval.rs:139-176 | In every run an interval reports one tick for each poll that finds its timer fired and no other, and the targets of its ticks are those that its missed-tick behaviour gives for the readings of these polls |
| `SleepRun.BurstTicks` | awkernel_async_lib/src/time_interval.rs:158-169 | In every run the k-th tick that a bursting interval reports is for k periods after its first |
| `SleepRun.TimelyExact` | awkernel_async_lib/src/time_interval.rs:140-145 | Within 64 bits the timer of an interval is due no earlier than its target if and only if the reading that measured the wait, or the target, is not past the time at which the timer is set |
| `SleepRun.CanceledNeverWakes` | awkernel_async_lib/src/sleep_task.rs:47-106 | A sleep that was cancelled, or dropped while it waited, never wakes its task, however the run goes on |
| `SleepRun.CancelForGood` | awkernel_async_lib/src/sleep_task.rs:68-106 | In every run, cancelling a sleep that has not finished or dropping one that waits cancels it for good, and it never wakes its task |
| `SleepRun.SleepExact` | awkernel_async_lib/src/sleep_task.rs:30-63 | In every run a sleep has woken its task once if it finished and never otherwise; unless it was cancelled it has no timer until it is polled and has finished if and only if its timer fired; and it has finished only if the clock has read the time it was due |
| `SleepRun.DueSleepFinishes` | awkernel_async_lib/src/sleep_task.rs:47-58 | In every run a waiting sleep that is due is finished, and its task woken once, by a wake call whose readings have reached its deadline |
| `SleepRun.BackwardTick` | awkernel_lib/src/time.rs:79-90 | A run with a clock that goes back, in which an interval reports a tick whose target the clock has not read |
| `TaskWake.TaskInfo.Wake` | awkernel_async_lib/src/task.rs:143-166 | A wake marks a queued or running task, ignores one that is over, and makes a waiting or new one runnable and asks for it to be queued |
| `TaskWake.TaskInfo.Settle` | awkernel_async_lib/src/task.rs:1375-1411 | After a poll a pending task waits with its mark cleared and is woken again exactly if it was marked, a finished one is terminated and one that panicked is panicked |
| `TaskWake.NextInv` | awkernel_async_lib/src/task.rs:143-183 | Every critical section of wakers and workers keeps each runnable task queued once, each running one held once, and every wake on record |
| `TaskTheorems.NeverTwice` | awkernel_async_lib/src/task.rs:1258-1411 | In every run a task is in the run queues, or about to be, exactly while it is runnable, and held by one worker exactly while it is running, and nowhere twice |
| `TaskTheorems.DispatchLeadsToPoll` | awkernel_async_lib/src/task.rs:1291-1318 | A dispatched task is always polled: its future is never locked by another worker, never completed, and the task never over |
| `TaskTheorems.OverExactly` | awkernel_async_lib/src/task.rs:1375-1411 | In every run a task is terminated if and only if no worker holds it and its last poll returned ready, and panicked if and only if no worker holds it and its last poll panicked |
| `TaskTheorems.LedgerExact` | awkernel_async_lib/src/task.rs:1291-1411 | In every run the record of a task tells exactly whether a wake has happened since the last poll of it began, and what the last poll of it returned |
| `TaskTheorems.NoWakeForgotten` | awkernel_async_lib/src/task.rs:1375-1411 | A wake that came after the last poll began stays queued, about to be queued, polled or woken again, or on record, until the task is over |
| `TaskTheorems.WakesAreAnswered` | awkernel_async_lib/src/task.rs:1258-1411 | Once nobody wakes a task any more, only boundedly many steps remain, one is possible until nothing is left to do, and then every wake was answered by a poll that began after it |
| `DmaMap.DirectLoad` | awkernel_lib/src/dma_map.rs:90-181 | The segments of a direct load cover the buffer's physical image byte by byte and in order, are not empty, cross no boundary, are no more than allowed, and are no longer than the limit or the longest chunk |
| `DmaSplit.DirectExact` | awkernel_lib/src/dma_map.rs:108-176 | A mapped buffer is loaded directly if and only if its chunks can be cut into at most as many contiguous pieces, each within the segment limit or one chunk and within one boundary window, as segments are allowed, and one at least |
| `DmaSplit.BouncedFull` | awkernel_lib/src/dma_map.rs:144-171 | A load that needs a bounce buffer has filled its list with a chunk left over that continues no segment |
| `DmaMap.MaxSegmentExact` | awkernel_lib/src/dma_map.rs:129-171 | All direct loads of buffers that fit in the word keep the segment size limit if no chunk of an acceptable buffer can exceed it, and only if, for constraints that leave room for an aligned page in the word |
| `DmaMap.OverLimit` | awkernel_lib/src/dma_map.rs:129-171 | At every aligned page a mapping within the word under which a buffer beyond the limit is loaded directly as one segment that is too long |
| `DmaMap.BuildMapped` | awkernel_lib/src/dma_map.rs:114-120 | A buffer whose every byte is mapped is never reported as invalid |
| `DmaMap.BouncedExact` | awkernel_lib/src/dma_map.rs:90-212 | After any sequence of loads and unloads a map holds a bounce buffer if and only if some load since the last unload went through one |
| `DmaMap.DirectAfterBounce` | awkernel_lib/src/dma_map.rs:90-181 | A direct load gives the device the buffer byte by byte, and the map still counts as bounced if and only if an earlier load since the last unload left its bounce buffer behind |
| `DmaMap.AlignedExact` | awkernel_lib/src/dma_map.rs:95-97 | For a power of two the alignment check passes if and only if the address is a multiple |
| `DmaMap.DmaMap.constructor` | awkernel_lib/src/dma_map.rs:75-84 | A new map is empty |
| `DmaMap.DmaMap.NextChunk` | awkernel_lib/src/dma_map.rs:129-142 | Masking computes what is left of the page, the buffer and the boundary window |
| `DmaMap.DmaMap.Append` | awkernel_lib/src/dma_map.rs:144-171 | A chunk joins the last segment exactly if it continues it within the limit and the window, starts a new one if there is room, or is one too many; `DmaSplit.DirectExact` says what this amounts to |
| `DmaMap.DmaMap.ScanBuffer` | awkernel_lib/src/dma_map.rs:108-176 | The loop ends and builds the list of the value step, which is direct exactly as `DmaSplit.DirectExact` says |
| `DmaMap.DmaMap.Load` | awkernel_lib/src/dma_map.rs:90-205 | The map after a load in each of its outcomes, and exactly when each occurs: too large, misaligned, invalid or out of memory with the segments found so far, bounced with one segment of the whole size, or direct with the list built and the bounce buffer kept |
| `DmaMap.DmaMap.Unload` | awkernel_lib/src/dma_map.rs:207-212 | Unloading empties the map |
| `Bits.HighMask` | awkernel_lib/src/dma_map.rs:102-106 | Masking with the complement of a power of two less one rounds down to a multiple |
| `PriorityQueue.HighestIsNext` | awkernel_lib/src/priority_queue.rs:34-38 | The highest marked level is never empty and its front is the oldest entry of the highest priority present |
| `PriorityQueue.PriorityQueue.constructor` | awkernel_lib/src/priority_queue.rs:11-16 | A new queue is empty |
| `PriorityQueue.PriorityQueue.Push` | awkernel_lib/src/priority_queue.rs:21-26 | Adds the entry with its clamped priority, and keeps a bit set exactly for each level that is not empty |
| `PriorityQueue.PriorityQueue.Pop` | awkernel_lib/src/priority_queue.rs:30-44 | Takes the oldest entry of the highest priority, nothing exactly when empty, and keeps the bits exact; its assertion never fails |
| `PcieWalk.CheckFunction` | awkernel_drivers/src/pcie.rs:631-699 | Looking at one function adds it behind those already there, or hangs a bus found earlier below its bridge, or scans the bus behind it and hangs it there; no function and no bus is lost or added twice |
| `PcieWalk.CheckDevice` | awkernel_drivers/src/pcie.rs:616-629 | The same over the eight functions of a device, in order |
| `PcieWalk.CheckBus` | awkernel_drivers/src/pcie.rs:601-613 | The same over the devices of a bus, whose scan begins once only: its functions hang directly below it in order |
| `PcieWalk.ReparentDid` | awkernel_drivers/src/pcie.rs:659-671 | Hanging a bus that was found before its bridge below that bridge loses nothing, places it there inside a bus of its own number, and takes it off the top of the tree |
| `PcieWalk.Init` | awkernel_drivers/src/pcie.rs:720-771 | For any wiring of bridges the walk ends, scans no bus twice, scans exactly the buses that answer and those a bridge on a lower scanned bus leads to, and leaves every function on a scanned bus that is no bridge between buses in the tree exactly once, directly below the bus it is on and in order, and nothing else; every scanned bus is in the tree exactly once, below a bridge that leads to it or at the top, where a bus found by its number stays if and only if no bus scanned later has a bridge back to it |

## Left out

- Preemption, context switches and the concrete schedulers: a scheduler is any choice of queued task, and any order of wakes; for the nodes of a DAG it also matters whether it looks deadlines up, which is part of their registration.
- Lifespan expiry, cancelled sends and transient-local joins of topics: messages are permanent and sends are polled to their end.
- Topics without flow control over whole runs: only the effect of one poll is stated for them.
- A task that is polled without having been woken: the runs of topics and DAGs poll a task only while it is awake; `PubSubTheorems.SpuriousPollStalls` shows what happens otherwise.
- The algorithms of the graph library: connectivity and cycles are taken by their meaning.
- Rules across several DAGs and the tables of pending tasks and arity mismatches kept per DAG identifier: one DAG is validated on its own, and arity is part of its registration.
- Machine widths of counters, job numbers and deadlines: they are natural numbers; the 64-bit and 32-bit truncations that matter are written out in timers and intervals, and the word width of DMA addresses is a parameter.
- Linked cells and boxes: a delta list, the deques of publishers and the children of a bus are sequences that methods reassign, so aliasing of cells is not captured.
- Locks, memory ordering and interrupts: a critical section is one step.
- The table of running task identifiers and the counters of queued tasks, with the assertion that checks the table after a poll.
- Subscribers that join while a topic is in use: the subscribers of a run are those it starts with, and they may close.
- Dropping a session endpoint before its protocol has ended, which the source treats as an error of the program.
- The copies made for a bounce buffer, cache maintenance and barriers, and that a bounce segment may itself exceed the segment limits.
- `TimeInterval.Interval.PollNext`: takes whether its sleep has ended as an input, because the sleep, the timer list and the clock meet in the runs of `SleepRun`.
- `DagResults.LagAndRetention`: does not decide whether the lag stays within the bound once messages have been lost, in the orders of registration in which a source that is not periodic comes after some but not all of the reactors; `DagBoot.KeepsUpExact` decides it over all orders.
- `DagTheorems.JobAlignment`: says nothing of runs that have lost a message while reactors were spawned, in which a node's k-th input comes from a later firing; the same holds for the agreement on deadlines. `DagSpawn.Lossless` and `DagLoss.NothingLostExact` say which runs these are.
- The panic that ends the spawning of a DAG without a periodic source: the reactors spawned by then are taken to run on, and nothing is spawned after them.
- Handlers as closures: a timer's handler is the value it carries.
- Dropping an interval or resetting it while it waits: the intervals of a run are those it starts with, and only polled.
- Failure of a reactor's task: all reactors of a DAG keep going, so eviction at the cap for a dead node is only shown to be unnecessary, not exercised.
- `skip` shortcuts and selection over several channels in session types, and values other than their type tag.
- Attaching devices, reading base addresses and printing the tree after the bus walk.
- `DagObject.Dag.FinishJobOf`: does not repeat that the registered graph is valid, because it touches none of the fields that this reads.
