# traffic-limitd: models and proofs

traffic-limitd is a daemon that puts a process into its own cgroup and limits the rate at which
the cgroup may send. Four parts of it carry the weight, and this project models them in Dafny and
proves what they promise.

**A. The cooperative scheduler.** Every queue (ready tasks, tasks parked on an event, events that
somebody waits on) is a ring of intrusive nodes, and one primitive, `s_list_toggle_connect`, joins
rings, splits them, or does nothing.

- `Rings` works on heap nodes. It gives the primitive its meaning, shows that it undoes itself, and
  lifts attach and detach to whole heaps of rings.
- `SeqScheduler` is the scheduler over plain sequences. `SchedulerInvariant` proves over every run
  that no task is lost or duplicated and that events are listed exactly while somebody waits.
  `SchedulerTraces` proves what `s_event_wait` returns and that a main-loop pass is round-robin.
  `Joins` proves that `s_task_join` returns as it should and that no wake-up is lost. `Records`
  follows the field `waiting_event`, which outlives the wait it was written for.
  `Sweep` gives the dead-task sweep in closed form. `StepLaws` says what each step does to every
  part of the state, and that this leaves one next state only.
- `SchedulerShape` and `RingScheduler` are the pointer version: records with flags, rings with
  `next` and `prev`. Each operation is proved to do to the rings what the sequence scheduler does to
  sequences. `RingScheduler.Scheduler.Perform` says it for every step at once.

**B. The departure-time pacer.** `Pacer` is the program for one packet, on unbounded integers and in
the machine's 64-bit arithmetic. `PacerRuns` proves rate bounds, the leaky-bucket equivalence and
recovery after a drop over unbounded packet runs. `PacerSmp` interleaves any number of CPUs.

**C. Registry, cleanups and admission.** `TaskRegistry` has the ring of client tasks beside the
scheduler's rings, on one heap, and the interrupt that walks it; `Interrupts` says what it does to
the scheduler. `Admission` turns the client handler into a state machine with a program counter;
`AdmissionRuns` proves the counter, the map's capacity, the single terminal message and the limit in
force over every interleaving; `AdmissionTraces` ties these to what the outside answered, and
`AdmissionEnds` shows that scopes are killed and nothing leaks. `SharedCgroup` shows what two handlers with one cgroup do to the
limits. `Daemon` has the cleanup loop in place.

**D. Netlink attributes.** `Netlink` has the builder, the walk, the nested-length fix-up and the
search for interface properties, byte by byte.

## Conventions

- A context switch is a change of `current`. What a suspended task was doing is kept in `control`.
- A sequence of steps is taken by whoever runs: `Enabled` lists what the program keeps to. Only
  coroutines wait and finish, and only the main task runs the main loop (`src/main.c:498-500`).
  `WaitKeepsInvIff`, `MustHaveOneTaskIff` and `CancelKeepsInvIff` show where these rules are exact.
- `GET_PARENT_ADDR` is a map from nodes to the record field they are embedded in.
- Clock readings, kernel answers, D-Bus results and interrupts are parameters and may be anything.
- Numbers in netlink headers are little endian, as on the hosts the daemon is built for.
- Each cgroup has one persistent pacer cell.

## What turned out not to hold

- `s_task_cancel_wait` does not look at its target. It keeps the scheduler sound exactly when the
  target is neither running nor finished (`CancelKeepsInvIff`). So `interrupt_all_tasks` keeps it
  sound exactly when no registered client that would be reached is running or has ended without
  being reaped (`Registry.InterruptAll`, `InterruptAllKeeps`). `EndedClientBreaks` has a run of five
  steps from the initial state to such a client; the next turn of the main loop then switches to
  the task that has ended.
- The comment at `src/cgroup_rate_limit.bpf.c:93` expects racing stores to write the same value.
  They can lose a charge, already with a cgroup's first two packets (`RacingStoresLoseACharge`). A
  store loses charge exactly if another CPU has committed since this one looked its entry up, and
  the last such commit left the virtual clock past this CPU's clock sample (`PutsBackIff`).
- `addattr_l` stores the length in 16 bits whatever the payload. The walk returns what was appended
  exactly when every payload has at most 65531 bytes (`RoundTripIff`), and `AddTooLong` has the
  input: a first attribute of 65532 bytes is accepted and stored with length 0. The filter request
  of the program cannot get there: its buffer is full first (`ReplaceBpfFilter`).
- A recorded `waiting_event` is one its task is still waiting on exactly as long as nobody yields
  with an event on record from a wait that is over (`StepLiveIff`). The daemon never yields, so
  `s_task_cancel_wait` always looks at a live event there (`CancelSeesLiveEvent`).
- When two handlers have one cgroup, nothing is wrong at once as long as the first has been promised
  all-drop, as it is until its request is in force (`EnterKeepsInForceIff`), but the second request then overwrites the limit of the first
  (`SharedIdOverwrites`, and from the start `SharedIdFromStart`). Over all continuations the limits
  stay in force if and only if the new cgroup id is nobody else's (`InForceIffFresh`).

## Model

| member | source | states |
|---|---|---|
| Rings.Node.Init | s_task/s_list.c:26-29 | an initialised node is a ring of its own |
| Rings.ToggleConnect | s_task/s_list.c:32-39 | two rings become their concatenation, one ring is split in two at the nodes, a node with itself changes nothing; every other ring stays; only the four named links change |
| Rings.ToggleTwice | s_task/s_list.c:42-49 | connecting and disconnecting the same pair restores every `next` and `prev` |
| Rings.RingRotates | s_task/s_list.c:32-39 | a ring may be read from any of its nodes |
| Rings.Attach | s_task/s_list.c:52-54 | on a whole heap of rings: the second ring goes behind the first, all others stay |
| Rings.Detach | s_task/s_list.c:57-59 | on a whole heap of rings: the node is alone, the rest keeps its order, all others stay |
| Rings.UnlinkSpread | s_task/s_list.c:57-59 | cutting a node out keeps the rings of the heap disjoint and the other rings equal |
| Rings.IsEmpty | s_task/s_list.c:62-64 | true exactly when nothing follows the head |
| Rings.Size | s_task/s_list.c:66-72 | the counting loop returns the number of followers and terminates |
| SeqScheduler.CancelReady | s_task/s_task.c:183-196 | cancelling a ready task moves it to the end of the ready queue, sets its flag, clears the current task's event and nothing else |
| SeqScheduler.CancelParked | s_task/s_task.c:183-196 | cancelling a parked task takes it from its event's queue to the end of the ready queue and delists the event if it was the last |
| SeqScheduler.CancelPlaced | s_task/s_task.c:183-196 | cancellation keeps every task in exactly one queue |
| Sweep.CancelQueue | s_task/s_event.c:54-62 | the inner loop moves the whole queue, in order and flagged, although it empties the ring it walks |
| Sweep.SweepEventsSwept | s_task/s_event.c:42-63 | the outer loop equals its closed form |
| Sweep.SweepIsSwept | s_task/s_event.c:37-72 | the sweep empties every queue and the list of events and appends the waiters in event-then-queue order, flagged |
| Sweep.OrderIsParked | s_task/s_event.c:37-72 | the sweep's order lists each parked task once and nobody else |
| SchedulerInvariant.InitialInv | s_task/s_task.c:109-121 | the initial state satisfies the invariant |
| SchedulerInvariant.CreateInv | s_task/s_task.c:123-138 | creating a task keeps the invariant |
| SchedulerInvariant.ParkListed | s_task/s_event.c:17-33 | an event is listed exactly while its queue is not empty, across a wait |
| SchedulerInvariant.SetInv | s_task/s_event.c:95-102 | setting an event keeps the invariant |
| SchedulerInvariant.CancelInv | s_task/s_task.c:183-196 | cancelling a waiting or ready task keeps the invariant, including the list of events when the task's recorded event is stale |
| SchedulerInvariant.WaitInv | s_task/s_event.c:79-92 | a coroutine's wait keeps the invariant |
| SchedulerInvariant.FinishInv | s_task/s_task.c:222-233 | a finishing coroutine keeps the invariant |
| SchedulerInvariant.StepInv | s_task/s_task.c:30-107 | every step keeps the invariant |
| SchedulerInvariant.RunInv | s_task/s_task.c:30-233 | every state of every run satisfies the invariant |
| SchedulerInvariant.OnePlace | s_task/s_task.c:30-107 | each task is at exactly one place, down to its position: running, ready, parked on one event, or finished |
| SchedulerInvariant.WaitKeepsInvIff | s_task/s_event.c:79-92 | a wait keeps the invariant if and only if it is not the main task that waits |
| SchedulerInvariant.MustHaveOneTaskIff | s_task/s_task.c:37-43 | the "must has one task" exit is taken by a wait if and only if the main task waits with nothing ready |
| SchedulerInvariant.CancelKeepsInvIff | s_task/s_task.c:183-196 | a cancellation keeps the invariant if and only if its target is neither running nor finished |
| SchedulerTraces.StepKeepsInfo | s_task/s_task.c:183-196 | no step of another task changes a task's record, except that a cancellation sets its flag |
| SchedulerTraces.StepKeepsParked | s_task/s_event.c:95-102 | a parked task leaves its queue only by cancellation or by that event being set |
| SchedulerTraces.WaitReturns | s_task/s_event.c:75-92 | in every run, s_event_wait returns -1 exactly if the task was cancelled since it parked, and 0 only if that very event was set since |
| SchedulerTraces.StepAdvances | s_task/s_task.c:30-51 | what each step does to the ready queue and the current task |
| StepLaws.StepOwnRecord | s_task/s_event.c:79-102 | the record of the task that takes a step, for every step: set, cancel and sweep clear its event, a wait writes it, an ending task has none, and the flag is cleared by waits, yields and endings but not by the main loop |
| StepLaws.CreateRecord | s_task/s_task.c:123-138 | a created task has a blank record and nobody waits for it |
| StepLaws.StepQueues | s_task/s_event.c:79-102 | what every step does to every event's queue, position by position |
| StepLaws.StepLists | s_task/s_event.c:17-33 | what every step does to the list of waited-on events, in order |
| StepLaws.StepFollows | s_task/s_task.c:30-233 | all these laws hold of every step |
| StepLaws.FollowsOnlyApply | s_task/s_task.c:30-233 | and they hold of one next state only, so they say all that a step does |
| SchedulerTraces.RoundRobin | s_task/s_task.c:93-107 | a main-loop pass runs the tasks that were ready at its start and not cancelled before their turn, once each, in order, before the main task; what became ready meanwhile is still queued, in order |
| SchedulerTraces.PlannedIff | s_task/s_task.c:183-196 | a task has its turn in the pass if and only if it was ready at the start and nobody cancelled it before |
| SchedulerTraces.NobodyCut | s_task/s_task.c:93-100 | without such a cancellation the pass runs the whole queue |
| Joins.JoinWaitsOnce | s_task/s_task.c:166-174 | the whole loop: returns 0 at once if the task has finished; otherwise it waits exactly once, returns -1 exactly if the caller was cancelled during the wait, and 0 only if the task has finished |
| Joins.JoinReturns | s_task/s_event.c:79-92 | what the wait inside a join returns, in every run |
| Joins.NoLostJoin | s_task/s_task.c:166-233 | in every run, nobody is left waiting for a task that has finished |
| Joins.StepKeepsEmpty | s_task/s_event.c:79-102 | an empty queue fills only by a wait on that very event |
| Records.StepLiveIff | s_task/s_event.c:79-102 | every unfinished task off the processor with a recorded event is inside the wait on that very event; a step keeps this if and only if it is not a yield with an event on record |
| Records.RunLive | s_task/s_task.c:183-196 | the same for every state of every run without such a yield |
| Records.CancelSeesLiveEvent | s_task/s_task.c:190-194 | the event that a cancellation looks at is one its target is waiting on at that moment |
| Records.RunEnded | s_task/s_task.c:230-231 | in every run a task that has ended has no event on record, so an interrupt of an ended client looks at none |
| SchedulerShape.DetachedShape | s_task/s_list.c:57-59 | detaching a task's node is removing the task from the queue it is in |
| SchedulerShape.PushActiveShape | s_task/s_task.c:97 | attaching a node to the ready ring is appending to the ready queue |
| SchedulerShape.PushWaiterShape | s_task/s_event.c:84 | attaching a node to an event's ring is appending to its queue |
| SchedulerShape.ListShape | s_task/s_event.c:21 | attaching an event's own node is appending to the list of events |
| SchedulerShape.UnlistShape | s_task/s_event.c:30 | detaching an event's own node is removing it from the list of events |
| SchedulerShape.WakeShape | s_task/s_event.c:96-97 | joining the event's ring to the ready ring and taking the head out appends all waiters |
| SchedulerShape.TakeShape | s_task/s_task.c:46-51 | detaching the node after the head is taking the first ready task |
| RingScheduler.Scheduler.constructor | s_task/s_task.c:109-121 | the new rings represent the initial sequences |
| RingScheduler.Scheduler.AddToWaitingList | s_task/s_event.c:17-24 | the rings do what `Enlist` does |
| RingScheduler.Scheduler.RemoveFromWaitingList | s_task/s_event.c:27-33 | the rings do what `Delist` does |
| RingScheduler.Scheduler.SpliceWaiters | s_task/s_event.c:96-97 | the rings do what `Wake` does |
| RingScheduler.Scheduler.CallNext | s_task/s_task.c:30-64 | the rings and the current task do what `Dispatch` does |
| RingScheduler.Scheduler.InitEvent | s_task/s_event.c:9-14 | the rings do what `DoInitEvent` does |
| RingScheduler.Scheduler.Create | s_task/s_task.c:123-138 | the rings and records do what `DoCreate` does |
| RingScheduler.Scheduler.Wait | s_task/s_event.c:79-88 | the rings and records do what `DoWait` does |
| RingScheduler.Scheduler.ReturnFromWait | s_task/s_event.c:89-91 | the return value is the sequence scheduler's and the flag is cleared |
| RingScheduler.Scheduler.Set | s_task/s_event.c:95-102 | the rings and records do what `DoSet` does: all waiters are ready, the queue is empty, the event is delisted, and it is the current task whose recorded event is cleared (`StepFollows`) |
| RingScheduler.Scheduler.CancelWait | s_task/s_task.c:183-196 | the rings and records do what `DoCancel` does, for any target |
| RingScheduler.Scheduler.Yield | s_task/s_task.c:102-105 | the rings and records do what `DoYield` does |
| RingScheduler.Scheduler.ReturnFromYield | s_task/s_task.c:106 | the flag is cleared after the switch back |
| RingScheduler.Scheduler.Resume | s_task/s_task.c:53-64 | whatever the new current task was in, it goes on as `DoResume` says |
| RingScheduler.Scheduler.LoopTurn | s_task/s_task.c:95-99 | the rings and records do what `DoLoop` does |
| RingScheduler.Scheduler.Finish | s_task/s_task.c:230-232 | the rings and records do what `DoFinish` does: those who join are ready, and the record is closed and blank (`StepFollows`) |
| RingScheduler.Scheduler.CancelWaiters | s_task/s_event.c:54-62 | the inner loop terminates while it edits the ring it walks, cancels the whole queue and counts it |
| RingScheduler.Scheduler.CancelDead | s_task/s_event.c:37-72 | both loops terminate, the rings do what `DoSweep` does, and the result is the number of parked tasks |
| RingScheduler.Scheduler.Perform | s_task/s_task.c:30-233 | whatever enabled step is taken, the rings represent the sequence scheduler's next state, the invariant holds, and no nodes come in but those the step brings |
| Interrupts.CancelAllRequeues | s_task/s_task.c:183-196 | cancelling distinct tasks one after the other puts them at the end of the ready queue in order, flagged, leaves every other task exactly where it was, and keeps the invariant |
| Interrupts.CancelInterrupts | src/se_libs.c:186-195 | one interrupt keeps the scheduler sound if and only if its task is neither running nor finished; then the task is last in the ready queue, flagged, and everybody else is where they were |
| TaskRegistry.TargetsAre | src/se_libs.c:186-204 | the tasks reached are those of the registered clients that do not refuse, each once |
| TaskRegistry.InterruptAllKeeps | src/se_libs.c:186-204 | interrupting all clients keeps the scheduler sound if and only if no client that would be reached is running or has ended without being reaped; then those reached are requeued in registry order and flagged, and everybody else stays |
| TaskRegistry.EndedClientBreaks | src/se_libs.c:112-149 | a run from the initial state to a client that has ended and is still registered; an interrupt then breaks the scheduler, and the next turn of the main loop switches to the ended task |
| TaskRegistry.Registry.CreateTask | src/se_libs.c:210-231 | without memory nothing changes; otherwise a client with the next number, no reason and interrupts enabled is last on the ring and its task last in the ready queue, on both rings; each client has a task of its own, the number counts the clients created, and soundness is kept |
| TaskRegistry.NumbersDiffer | src/se_libs.c:223 | until 2^64 - 2 clients have been created, registered clients have different numbers, all below the next one; `Registry.Valid` keeps this through every operation |
| TaskRegistry.Registry.Perform | s_task/s_task.c:30-233 | any step of the scheduler keeps the registry and the scheduler in order together, the ring of clients unchanged and the scheduler sound |
| TaskRegistry.Registry.Reap | src/se_libs.c:112-125 | the ended client leaves the ring, the others keep their order, the scheduler stays as it is |
| TaskRegistry.InterruptTask | src/se_libs.c:186-195 | on the rings: a client that refuses keeps its reason and its place; any other has the reason, and the scheduler has cancelled its task's wait |
| TaskRegistry.InterruptRing | src/se_libs.c:197-204 | the walk visits each client once, in registry order, leaves the ring as it is, and the scheduler's rings follow the sequence scheduler step by step |
| TaskRegistry.Registry.InterruptAll | src/se_libs.c:197-204 | on the rings: the scheduler stays sound if and only if no client that would be reached is running or has ended; then those reached are at the end of the ready queue in registry order, flagged, and everybody else is where they were; those reached have the reason, those who refuse keep theirs |
| TaskRegistry.Registry.IsTaskEmpty | src/se_libs.c:206-208 | true exactly when nobody is registered |
| Pacer.RoundDiv | src/cgroup_rate_limit.bpf.c:84-85 | the quotient is within half a unit of the exact one |
| Pacer.Schedule | src/cgroup_rate_limit.bpf.c:88-108 | a stamp lies between now and now plus the horizon and not before the virtual clock, which moves to the stamp plus the delay; a drop changes nothing |
| Pacer.ProcessIs | src/cgroup_rate_limit.bpf.c:77-108 | the verdict for every packet: it passes exactly without a limit, is dropped exactly for a zero rate or when the later of now and the virtual clock is more than two seconds away, and otherwise leaves then; only then does the clock move |
| Pacer.DelayIs | src/cgroup_rate_limit.bpf.c:84-86 | the delay is no less than either rate asks and no more than one of them asks, up to rounding; a rate that is unlimited asks for nothing |
| Pacer.DelaySmall | src/cgroup_rate_limit.bpf.c:84-86 | delays stay below a quarter of the 64-bit range |
| Pacer.NoWrap | src/cgroup_rate_limit.bpf.c:84-86 | no operation in the delay computation wraps, for any limits |
| Pacer.Program.CgroupRateLimit | src/cgroup_rate_limit.bpf.c:73-109 | in 64-bit arithmetic the program does what `Process` does on integers, which `ProcessIs` and `DelayIs` determine, for any virtual clock, any limits, and real clocks below 2^63 |
| Pacer.Program.Charge | src/cgroup_rate_limit.bpf.c:88-108 | the three branches in 64-bit arithmetic do what `Schedule` does |
| PacerRuns.ClockRunsAhead | src/cgroup_rate_limit.bpf.c:88-107 | after an accepted packet the virtual clock is ahead of its stamp by at least all delays charged since, whatever the clock does |
| PacerRuns.StampsSpread | src/cgroup_rate_limit.bpf.c:88-107 | two accepted packets leave at least the charged delays apart |
| PacerRuns.ByteRateBound | src/cgroup_rate_limit.bpf.c:84-107 | over every run and window, the bytes let through are bounded by the byte rate, up to rounding |
| PacerRuns.PacketRateBound | src/cgroup_rate_limit.bpf.c:85-107 | the same for packets and the packet rate |
| PacerRuns.BusyRates | src/cgroup_rate_limit.bpf.c:84-102 | a sender that is never idle waits no longer than the two rates ask: its departures are exactly the charged delays apart, and these split into what the byte rate asks for some bytes and what the packet rate asks for the other packets |
| PacerRuns.BusyByteRate | src/cgroup_rate_limit.bpf.c:84-102 | with a byte limit only it gets the byte rate, up to rounding: the bound is tight |
| PacerRuns.BusyPacketRate | src/cgroup_rate_limit.bpf.c:85-102 | with a packet limit only it gets the packet rate, up to rounding |
| PacerRuns.PacerIsLeakyBucket | src/cgroup_rate_limit.bpf.c:81-108 | on a clock that does not go back, verdicts and stamps are those of a leaky bucket |
| PacerRuns.ClockBounded | src/cgroup_rate_limit.bpf.c:97-104 | the virtual clock is never further ahead than the horizon and the largest delay accepted so far, whatever was dropped |
| PacerRuns.AcceptsAgain | src/cgroup_rate_limit.bpf.c:92-107 | a packet with a non-zero limit that comes d or more after a drop is accepted, if nothing was accepted in between and nothing accepted before the drop was charged more than d |
| PacerSmp.StepInv | src/cgroup_rate_limit.bpf.c:88-107 | the bound on the virtual clock, with the pending additions counted in, is kept by every step of every CPU |
| PacerSmp.ClockBounded | src/cgroup_rate_limit.bpf.c:88-107 | over every interleaving on n CPUs with delays within d, the virtual clock is at most the horizon and n times d ahead |
| PacerSmp.NoChargeLost | src/cgroup_rate_limit.bpf.c:99-102 | while nothing is stored the virtual clock moves by exactly the delays charged |
| PacerSmp.ChargesKept | src/cgroup_rate_limit.bpf.c:92-105 | in every interleaving the virtual clock is short of the delays charged by at most what racing stores put it back |
| PacerSmp.PutsBackIff | src/cgroup_rate_limit.bpf.c:88-94 | a store loses charge if and only if another CPU committed since this one looked its entry up and the last such commit left the clock past this CPU's sample |
| PacerSmp.PutBackHasRival | src/cgroup_rate_limit.bpf.c:88-105 | in every run, whenever the clock is put back another CPU has committed within the storing CPU's window |
| PacerSmp.ChargesKeptAlone | src/cgroup_rate_limit.bpf.c:88-105 | no charge is lost in a run where no commit falls between another CPU's look-up and its store |
| PacerSmp.SmpRateBound | src/cgroup_rate_limit.bpf.c:88-107 | in every interleaving the delays let through on all CPUs, less what was put back, are bounded by the real clock, the horizon and one delay per CPU |
| PacerSmp.AloneIsSequential | src/cgroup_rate_limit.bpf.c:88-108 | a packet handled without interruption is handled as `Schedule` says |
| PacerSmp.PacketLetThrough | src/cgroup_rate_limit.bpf.c:88-107 | in every interleaving, what a packet's stamp and its charge are, in terms of the clock when it was sampled, the virtual clock at the look-up, the read and the commit; an entry missing at the look-up is stored whether or not it is there by then |
| PacerSmp.DroppedIff | src/cgroup_rate_limit.bpf.c:97-98 | in every interleaving, a packet is dropped exactly if the value read is more than two seconds past its CPU's clock sample |
| PacerSmp.RacingStoresLoseACharge | src/cgroup_rate_limit.bpf.c:88-106 | a run from the initial state in which the first two packets both pass and one charge is lost |
| Admission.ResumeMessages | src/main.c:177-402 | on every path a handler issues at most one terminal message; only a client that erred is told so, and a rejected one is told that there is no room |
| Admission.ResumeStack | src/main.c:188-353 | every stretch keeps the cleanup list in order and accounts for the counter and the map |
| AdmissionRuns.CleanCounted | src/main.c:127-135 | a release never finds the counter at zero |
| AdmissionRuns.CleanOwned | src/main.c:137-146 | after any one cleanup every key of the map still has an owner, or was kept by the kernel |
| AdmissionRuns.StepInv | src/main.c:177-402 | every step of every handler keeps the counter, the ownership of keys and the message discipline |
| AdmissionRuns.RunInv | src/main.c:127-203 | over every interleaving the counter is the number of admitted handlers not yet released, at most the maximum; the abort is unreachable; at most one terminal message each |
| AdmissionRuns.KeysFew | src/main.c:304-310 | the map has no more keys than handlers with a limit to clear plus keys the kernel kept, and these handlers are no more than the counter |
| AdmissionRuns.RoomToBlock | src/tcbpf_util.c:506-511 | a handler about to enter its cgroup finds room, if the kernel kept no more keys than the spare eighth |
| AdmissionRuns.MapNeverFull | src/tcbpf_util.c:506-511 | the same for every state of every run, also between two cleanups |
| AdmissionRuns.RunHolds | src/main.c:304-374 | over every run the map holds, for each handler that has a limit to clear, all-drop and then what the handler has on record; what that is says `LimitIsAnswer` |
| AdmissionTraces.ResumeEnters | src/main.c:177-402 | every stretch of a handler keeps to the order of awaits, and what the outside has to have answered for each |
| AdmissionTraces.ProceedPath | src/main.c:242-355 | whenever PROCEED is written: the caller's cgroup had no limit; from the moment the scope's cgroup id was known the map held all-drop for it; from the client's request on it held that very request, PROCEED included |
| AdmissionTraces.RequestGranted | src/main.c:316-355 | a complete request that the kernel takes leads to PROCEED at the handler's next step |
| AdmissionTraces.LimitIsAnswer | src/main.c:304-349 | as long as a handler has a limit to clear, it is that of the cgroup id it was told, and the map holds all-drop or what its client asked for |
| AdmissionTraces.AdmittedIffRoom | src/main.c:196-203 | a client is let in if and only if fewer than the maximum are, and is told that there is no room if and only if that many are |
| AdmissionTraces.BlameIsRight | src/main.c:258-377 | a handler that gives up blames its client if and only if the caller has a limit already, or no complete request came in time |
| AdmissionTraces.InterruptSpeaks | src/main.c:381-393 | an interrupt writes a message if and only if the daemon is about to exit and the client has not been told anything |
| AdmissionTraces.NameKnownIff | src/main.c:210-230 | the daemon knows its own name exactly from the first answer on, so only handlers let in before that ask for it |
| AdmissionEnds.EndsAfterKill | src/main.c:368-401 | a handler that has started a scope and does not end in an error ends after it has had the scope killed, and kills only what it has started |
| AdmissionEnds.KilledWhenOver | src/main.c:358-369 | outside interrupts a scope is killed only when the wait for the client's process is over, and that is awaited only after PROCEED |
| AdmissionEnds.NothingLeaks | src/se_libs.c:127-169 | when a handler is done, what it has released is what it has acquired: all of it, each once, the last acquired first |
| SharedCgroup.EnterKeepsInForceIff | src/main.c:304-310 | the moment a handler enters a cgroup all limits are still in force if and only if every other handler of that cgroup has been promised all-drop, as those without a request in force have |
| SharedCgroup.SharedIdOverwrites | src/main.c:304-349 | if there is another handler of that cgroup, one more step overwrites the limit it has been promised |
| SharedCgroup.InForceIffFresh | src/main.c:293-349 | over all continuations the limits stay in force if and only if the new cgroup id is nobody else's |
| SharedCgroup.SharedIdFromStart | src/main.c:177-349 | a run from the empty system in which a handler finds another's limit on its cgroup |
| Daemon.Globals.RunCleanups | src/se_libs.c:136-142 | the loop runs the list once, first entry first; a handler's list releases the counter exactly once if it was taken, never aborts, and removes no other key than the handler's |
| Daemon.CleanAllEffect | src/se_libs.c:127-148 | a whole list releases the counter exactly once if it was taken, never aborts, removes the handler's key and no other |
| Daemon.CleanupsAddUp | src/se_libs.c:136-142 | the loop is what the protocol's single cleanup steps add up to |
| Netlink.Message.AddAttr | src/tcbpf_util.c:49-64 | succeeds exactly when there is room; then one attribute is appended and nothing before it changes |
| Netlink.Message.WriteAttr | src/tcbpf_util.c:57-61 | header and payload are written, and no other byte |
| Netlink.Message.CloseNested | src/tcbpf_util.c:273-279 | the attributes appended after the options become exactly their payload; the bytes before stay |
| Netlink.WalkVisitsAll | src/tcbpf_util.c:113-140 | the walk visits exactly the appended attributes, in order, and stops |
| Netlink.WalkVisitsFirst | src/tcbpf_util.c:113-140 | whatever bytes follow, the walk first visits the attributes that are there |
| Netlink.WalkStopsIff | src/tcbpf_util.c:116 | the walk stops exactly at too few bytes for a header, or a length that is too small or goes beyond the end |
| Netlink.RoundTripIff | src/tcbpf_util.c:49-64 | the round trip holds if and only if every payload fits the 16-bit length |
| Netlink.BuildBpfFilter | src/tcbpf_util.c:272-279 | for any buffer: succeeds exactly when there is room and leaves the bytes before it alone; a walk then finds the kind and the options, and a walk of the options the four attributes, exactly for names that fit |
| Netlink.ReplaceBpfFilter | src/tcbpf_util.c:256-279 | for the program's request: built exactly for names of at most 65496 bytes, and whenever it is built the nested length is right and both walks find what was put in |
| Netlink.AddTooLong | src/tcbpf_util.c:49-64 | in a request of that size a first attribute of 65532 bytes is accepted, its length is stored as 0 and a walk finds nothing |
| Netlink.SearchAnswer | src/tcbpf_util.c:113-140 | the loop with its early stop is the search over the walked attributes |
| Netlink.SearchReturns | src/tcbpf_util.c:113-140 | the payloads are those of the last attribute of either kind among the first ones in which both occur |
| Netlink.LastOfIs | src/tcbpf_util.c:117-133 | these payloads are of the last attribute whose kind, without the nested flag, is the type |
| Netlink.GetIfaceProps | src/tcbpf_util.c:106-145 | fails exactly when one of the two attributes is missing from the walk; otherwise, from the last of either up to where both have been seen, the number is the four bytes in two's complement, and each kind is given exactly for its own name |
| Netlink.StringEqualsIff | src/tcbpf_util.c:120-128 | a payload compares equal exactly if it starts with the name and its zero byte; the comparison runs past the payload exactly if that is the name cut short |
| Netlink.QdiscOfIff | src/tcbpf_util.c:119-130 | each kind is found exactly for its own name; only a name cut short cannot be told |
| Netlink.U32RoundTrip | src/tcbpf_util.c:38-41 | the number read is the one whose bytes were appended |

## Left out

- Registers and stacks (`s_task/jump_*.S`, `s_task/make_*.S`, `s_task/s_port_posix.inc.h`, the stack-size probing): a switch is a change of the current task.
- Joins.JoinWaitsOnce: `s_task_join` appears as the steps its caller takes in a run, since the caller is suspended inside it.
- Storage reuse: events and tasks stay allocated in the model; that a recorded event is looked at only inside the wait on it is `Records.CancelSeesLiveEvent`.
- TaskRegistry.Registry.CreateTask: the entry function and its argument are not modelled.
- Admission: the handler's awaits end with any result at any time; message streams, pidfds, timers and D-Bus calls behind them are not modelled.
- Netlink.GetIfaceProps: starts from the answer; the request and the test of the answer's message type are not modelled.
- Netlink.Message.AddAttr: the abort on overflow is the result `false`.
- `tc` set-up sequences, loading of the BPF object, netlink sockets, cgroup paths, logging and the client program: kernel calls, formatting and option parsing.
- LRU eviction in the pacer's map: each cgroup keeps its cell.
