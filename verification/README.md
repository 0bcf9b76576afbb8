# 0-core: a proof model of the process manager and its neighbours

0-core is the init system of Zero-OS. This project models its concurrent core in Dafny and proves what it is
for: services boot in dependency order, jobs are admitted and run one at a time per queue, exit statuses reach
the caller that waits for them, output is split into messages without losing a byte, and the smaller
allocators and indexes around it (firewall rules, ports, statistics, plugins, container numbers) keep their
promises.

Code that changes things step by step is written as classes and methods with loops, each proved against a
function or predicate that the theorems are about. Code made of goroutines is a state machine: one state, one
action for each step between two points where a goroutine can block, and theorems over every run, that is,
over every interleaving. Where the code does not do what its comments or its callers expect, there is a lemma
with a concrete input, and the exact condition under which it does.

| file | what it models |
|---|---|
| Settings.dfy, WeightPaths.dfy | `Startup.Weight`: the recursive, cycle-checked weight; the same as a sum over ways down |
| StartupTree.dfy | the sorted tree of services, its side table of weights, and its three slices |
| WaitMachine.dfy | gates that are released once and waited for |
| SliceRun.dfy, SliceTheorems.dfy, SliceHistory.dfy | one boot slice as interleaved goroutines; order, failure, progress; what gates and states say about what was done |
| Boot.dfy | the three stages together |
| JobQueue.dfy, JobManager.dfy, JobTheorems.dfy, JobHistory.dfy | admission and dispatch over two locks and an unbuffered channel; the cap and the wake-ups |
| PidTable.dfy | registering, reaping and waiting for processes |
| JobLoop.dfy, JobStops.dfy, BackOff.dfy | the restart loop of a job, when it stops, and the respawn delays |
| Stream.dfy, StreamExact.dfy | the chunked output parser, and the one way in which it takes a chunk apart |
| StreamTheorems.dfy, StreamFraming.dfy, StreamHeaders.dfy | conservation, framing, no header missed |
| StreamRoundTrip.dfy, StreamBlocks.dfy | round trip, blocks over chunks |
| Condition.dfy, ConditionTheorems.dfy, ConditionTexts.dfy, ConditionLoops.dfy, ConditionPanics.dfy | condition expressions: evaluation, parser, round trip, exactly which texts are loaded, divergence, panics |
| Firewall.dfy, FirewallTheorems.dfy | the nat/pre chain and dropping rules by body |
| PortForward.dfy, ForwardTable.dfy, SocatManager.dfy | the table of port forwards and the rules it has in the chain |
| SocatTheorems.dfy, Namespaces.dfy | what any sequence of calls leaves of it; whom a forward belongs to |
| Reservation.dfy | handing out free ports for a while |
| Stats.dfy, StatsTheorems.dfy | windowed statistics against a plain log |
| Plugins.dfy, PluginTheorems.dfy | opening plugins after what they require |
| Containers.dfy | container numbers and default addresses |
| Wrappers.dfy, Text.dfy | `Option` and `Result`; text inside text, decimal numerals |

What comes from outside is a parameter or an action: clocks, the order in which a map is iterated, whether a
firewall command works, whether a job's process succeeds, when a child dies, which services' conditions hold.

## What turned out not to hold

- A slice does not always return. A service that stays up and never signals readiness (an output match that never
  matches, or a negative running delay) holds its slice, and so the whole boot, although nothing is wrong with its
  dependencies (`SliceTheorems.SilentServiceHolds`, `Boot.HeldUpBoot`); so does one that the manager never answers
  for, as when the job table is full. A service with an empty name is dispatched under a generated job id, so its
  gate is never released (`SliceTheorems.EmptyKeyWedges`); a service named like the milestone it follows has a
  weight but waits for itself (`MilestoneNameWedges`). A slice that has come to rest has returned exactly if no
  services whose conditions hold wait for each other in a circle, no job id was lost, and every service it handed
  over was answered for and has signalled readiness or exited (`ReturnsIff`; for the three stages
  `Boot.BootCompletesIff`). Such a circle always has a service named like a milestone in it
  (`Boot.CircleNamesMilestone`).
- A service that lists `----` can be started before what it waits for (`Boot.EndMarkerBreaksOrder`): a dependency
  has been released exactly if it weighs at least as much as `init` and its stage is not a later one
  (`Boot.BootOrderIff`). One that lists only `----`, or `init` and `----`, is kept without any error, but it is in
  none of the three slices and never started (`Boot.EndMarkerIsNeverStaged`, `StagedIff`).
- The job manager can come to a standstill for good. With the job table at its cap, the caller that holds the
  table's lock, the dispatch loop and the clean-up of the running job wait for each other
  (`JobTheorems.CapWedges`). With the table below its cap again, a clean-up that offers the next job of its queue
  waits for the loop, which sleeps until that same clean-up broadcasts (`BelowCapWedges`). It stands still exactly
  if a job is offered while the loop sleeps and nobody is left to wake it (`StuckIff`), and then no job is ever
  dispatched again (`WedgedForever`). As long as the table has never reached its cap nothing is stuck
  (`NeverStuckBelowCap`).
- A job refused because the queue is closed keeps its id in the table for good (`RejectedStaysListed`,
  `RejectedIdStaysTaken`).
- If the kernel gives a pid out again before its old entry is deleted, the old clean-up deletes the new entry:
  a status is lost, or delivered to the wrong waiter, or sent on a closed channel, which is a run-time panic of the process manager
  (`PidTable.EarlyReuseLosesStatus`, `EarlyReuseMisdelivers`, `EarlyReusePanics`).
- The comment of `BackOff` promises growing delays; rounding to whole seconds stops short ones
  (`BackOff.GrowsIff` has the condition).
- A terminator cut by the end of a chunk is not seen, except between its first line feed and the rest
  (`StreamBlocks.CutTerminatorIsMissed`); text right after a terminated block is never taken for a header
  (`TextAfterBlockIsPlain`).
- The condition parser does not return for an unfinished argument list that ends in a comma
  (`ConditionLoops.NeverReturnsIff`), and `and()` parses to something whose evaluation panics
  (`ConditionPanics.EmptyParenthesesPanic`). Evaluation panics exactly if it gets to an empty argument position
  (`PanicsIff`); a text in which a word follows every opening parenthesis and every comma never leads there
  (`FullTextNeverPanics`).
- Dropping rules is not all or nothing. A removal of which one drop command works and the next does not, say of a
  forward for tcp and udp, leaves the table as it was and the chain short of a rule; every later try then fails
  because the rule is not found, so the forward stays in the table for good, its port stays in use, and it blocks
  the removal of its whole namespace. The same holds for a forward that names a protocol twice
  (`SocatTheorems.StaysForGood`, `DoubledProtocolStays`). The chain is what the table asks for exactly as long as no
  removal failed after dropping a rule (`InStepIffNeverTorn`; `TornIff` says when one does).
- Removing the forwards of container 1 also removes those of container 10 (`Namespaces.ContainerOneTakesTen`).
- The maximum of values before the first whole duration is over is not below zero even if they all are
  (`StatsTheorems.TopIsMaximumIff`).
- Container 65534 is given the broadcast address of its network (`Containers.AddressesAreApart`); under a limit
  above 65534, creating a container does not return when all numbers are in use (`Containers.UsableIff`).

## Model

| member | source | states |
|---|---|---|
| Settings.ComputeWeight | base/settings/startup.go:33-61 | the weight loop returns the recursive weight: the end priority without dependencies, else the sum over the names, the first failing name deciding the error |
| Settings.SumFailsIff | base/settings/startup.go:45-58 | a list of dependencies fails exactly when one of its names does |
| Settings.FirstFailure | base/settings/startup.go:45-58 | the error is that of the first name that fails |
| Settings.FailurePath | base/settings/startup.go:33-61 | a failing weight has a dependency path to blame, which says which error it is: to an unknown name, or into the chain or round a cycle |
| Settings.PathFails | base/settings/startup.go:33-61 | a path to an unknown name or into the chain makes the weight of its start fail |
| Settings.LoopFails | base/settings/startup.go:33-36 | a path that comes back to itself makes the weight of its start fail, below any chain |
| Settings.WeightFailsIffBroken | base/settings/startup.go:33-61 | from an empty chain the weight fails exactly when an unknown name or a cycle is reachable |
| Settings.ShorterChain | base/settings/startup.go:33-38 | what succeeds below a longer chain succeeds below a shorter one, with the same weight |
| Settings.KeptIsClosed | base/settings/tree.go:77-84 | services that are kept only wait for services that are kept |
| Settings.WeightsFollowDependencies | base/settings/startup.go:45-58 | unless an end marker can be reached, a service weighs at least as much as each service and milestone it names, and as `init` |
| Settings.WeighsAtLeastIff | base/settings/startup.go:45-58 | a service weighs what its names weigh together, and at least as much as one of them exactly if the others together are not negative |
| WeightPaths.WeightIsEndTotal | base/settings/startup.go:33-61 | a weight is the sum, over all the ways down from the service, each counted once, of the priority of the milestone it ends at, and of `boot` where it ends at a service that names nothing |
| Settings.FindIndependent | base/settings/startup.go:33-36 | among any kept services one waits for none of the others |
| StartupTree.Tree.Add | base/settings/tree.go:86-87 | a service is appended together with its weight |
| StartupTree.Tree.Less | base/settings/tree.go:33-35 | compares weights by position |
| StartupTree.Tree.Swap | base/settings/tree.go:37-40 | exchanges two services together with their weights |
| StartupTree.Tree.Sort | base/settings/tree.go:90-90 | sorting through Less and Swap gives a weight-ordered permutation of service and weight pairs |
| StartupTree.Tree.Slice | base/settings/tree.go:42-57 | the services whose weight lies in the range, in tree order; an upper bound of -1 is none |
| StartupTree.SwapRunIsPermutation | base/settings/tree.go:37-40 | any run of swaps keeps each weight attached to its service |
| StartupTree.Prepare | base/settings/tree.go:59-66 | every service learns its own name and nothing else changes |
| StartupTree.GetStartupTree | base/settings/tree.go:68-93 | the tree holds every kept service once with its weight, in weight order; every other one is reported once with its error |
| StartupTree.SelectMembers | base/settings/tree.go:42-57 | a slice has exactly the services of the tree in its range |
| StartupTree.StagesPartition | apps/core0/bootstrap/bootstrap.go:337-365 | the three slices one after the other are the services that weigh at least as much as `init`, in tree order; they are the whole tree exactly if none weighs less |
| WaitMachine.StateMachine.constructor | base/mgr/waitmachine.go:26-38 | every name gets a shut gate |
| WaitMachine.StateMachine.Release | base/mgr/waitmachine.go:60-74 | a known gate takes the state and is closed for good; an unknown one is an error |
| WaitMachine.StateMachine.Wait | base/mgr/waitmachine.go:46-58 | true exactly if every known gate was released as a success |
| WaitMachine.ReleaseIsPermanent | base/mgr/waitmachine.go:60-74 | after any releases: a closed gate is still closed, a released gate holds the state of its last release, and any other gate is as it was |
| SliceRun.RunInv | base/mgr/pm.go:265-368 | every reachable state of a slice: what each service's gate and state say about its dependencies |
| SliceRun.StepFollows | base/mgr/pm.go:313-362 | a service that was dispatched, came up or failed stays so |
| SliceHistory.StateIsHistory | base/mgr/pm.go:313-361 | in every run, what a state says is what was done: given up, accepted or refused by the manager, reported, ready, exited |
| SliceHistory.GateIsLastRelease | base/mgr/pm.go:286-361 | the gate of a named service is shut until something releases it, and then holds the value of the last release: a failure if skipped, given up or refused, a success when ready, the outcome at exit |
| SliceTheorems.DispatchAfterDependencies | base/mgr/pm.go:313-356 | in every interleaving, a service is handed to the manager only after every service of its slice that it waits for was released and came up |
| SliceTheorems.FailurePropagates | base/mgr/pm.go:286-361 | below an unmet condition or a refused dispatch no transitive dependent is ever dispatched, and all are released as failures |
| SliceHistory.RefusalPropagates | base/mgr/pm.go:356-361 | once the manager answered a call with an error, the service never comes up, nothing that waits for it is ever handed over, and at return its gate and theirs are failures |
| SliceHistory.AcceptedGate | base/mgr/pm.go:323-354 | once it answered without one, the gate is closed exactly when a hook of the service has fired, and holds what the last of them said |
| SliceTheorems.OutcomeWhenReturned | base/mgr/pm.go:274-368 | when the slice is through: a service that was dispatched has its condition met and everything it waits for came up; for one that was not, the condition is unmet or something it waits for let it down |
| SliceTheorems.RestBlames | base/mgr/waitmachine.go:40-58 | a slice that is at rest, not through, and waiting for no job, no answer of the manager and no lost id has services whose conditions hold waiting for each other in a circle |
| SliceTheorems.CircleNeverReturns | base/mgr/waitmachine.go:46-58 | in every run, no service of a circle of waits is ever dispatched or let go, and the slice never gets through |
| SliceTheorems.LostIdNeverReturns | base/mgr/pm.go:79-82 | a job that was given a generated id keeps its slice from returning |
| SliceTheorems.ReturnsIff | base/mgr/pm.go:313-367 | whatever the jobs and the manager do, a slice at rest is through exactly if there is no such circle, no id was lost, and everything handed to the manager was answered for and has signalled readiness or exited |
| SliceTheorems.HeldUpNeverReturns | base/mgr/pm.go:323-354 | as long as a job is up without having signalled readiness, or the manager has not answered, the slice does not return |
| SliceTheorems.StuckReturnsIff | base/mgr/pm.go:313-367 | in particular, when every job has exited and every hook has fired, it is through exactly if there is no circle and no id was lost |
| SliceTheorems.MaximalRunReturns | base/mgr/pm.go:313-367 | without any circle of dependencies, whatever the conditions say, a slice at rest is through exactly if no id was lost and it is waiting for no job and no answer of the manager |
| SliceTheorems.RunsAreBounded | base/mgr/pm.go:313-367 | no interleaving goes on forever |
| SliceTheorems.EmptyKeyWedges | base/mgr/pm.go:79-82 | a service with an empty name wedges its slice |
| SliceTheorems.SilentServiceHolds | base/mgr/pm.go:326-354 | a service without a readiness hook, or whose hook never fires, that stays up holds its slice |
| SliceTheorems.MilestoneNameWedges | base/settings/startup.go:46-48 | a service named after the milestone it follows waits for itself: no run of its slice returns |
| Boot.StageIsGrounded | base/settings/tree.go:77-88 | without a service called like a milestone, no services of a slice wait for each other in a circle |
| Boot.CircleNamesMilestone | base/settings/startup.go:46-48 | services of a slice that wait for each other in a circle include one called like a milestone |
| Boot.StagedIff | apps/core0/bootstrap/bootstrap.go:337-365 | a kept service is in one of the three slices exactly if it weighs at least as much as `init` |
| Boot.EndMarkerIsNeverStaged | base/settings/include.go:38-44 | a service after only the end marker, or after `init` and the end marker, is kept and in the tree, but in no slice |
| Boot.BootOrderIff | apps/core0/bootstrap/bootstrap.go:337-365 | in every run of the three stages, when a service is handed over, a service it names has been released (in an earlier, completed slice, or up in its own) exactly if that one weighs at least as much as `init` and belongs to no later slice |
| Boot.MilestonesPassed | apps/core0/bootstrap/bootstrap.go:337-365 | a service is handed over in the slice of its weight, after all earlier slices are through |
| Boot.NamesNothingIsLast | base/settings/startup.go:39-42 | a service that names nothing weighs 1000000 and is handed over in the last slice, after the two others are through |
| Boot.BootOrder | apps/core0/bootstrap/bootstrap.go:337-365 | so a service from which no end marker can be reached is handed over after every service it names was released and every milestone it names was passed |
| Boot.BootCompletesIff | apps/core0/bootstrap/bootstrap.go:337-365 | a boot at rest has brought all three slices through exactly if in none of them services wait in a circle, an id was lost, or a job or an answer of the manager is still waited for |
| Boot.HeldUpBoot | apps/core0/bootstrap/bootstrap.go:337-365 | a service that is up without having signalled readiness, or not answered for, holds the whole boot at its slice |
| Boot.StuckBootCompletesIff | apps/core0/bootstrap/bootstrap.go:337-365 | when every job of every slice has exited and every hook has fired, circles and lost ids alone decide |
| Boot.BootCompletes | apps/core0/bootstrap/bootstrap.go:337-365 | with no service of an empty name or called like a milestone, a boot at rest is through exactly if it is waiting for no job and no answer of the manager |
| Boot.BootIsBounded | apps/core0/bootstrap/bootstrap.go:337-365 | no run of the boot goes on forever |
| Boot.EndMarkerBreaksOrder | base/settings/include.go:38-44 | a service that lists the end marker is dispatched in a stage before that of its dependency |
| JobQueue.Queue.Close | base/mgr/queue.go:31-36 | closes the queue and touches no job |
| JobQueue.Queue.Push | base/mgr/queue.go:44-70 | an open queue takes the job at the end of its named list; it goes to the channel if unnamed or first |
| JobQueue.Queue.Notify | base/mgr/queue.go:73-93 | the front of the finished job's list goes, and the next is sent; an emptied list is deleted |
| JobTheorems.RunInv | base/mgr/pm.go:79-137 | every reachable state of callers, loop and finishing jobs over both locks and the channel |
| JobTheorems.OneInFlightPerQueue | base/mgr/queue.go:51-67 | in every interleaving, a named queue has at most one job between dispatch and the end of its clean-up |
| JobTheorems.DispatchInPushOrder | base/mgr/queue.go:51-92 | the jobs of a named queue are dispatched in the order they were pushed, each at most once |
| JobTheorems.NotifyRemovesTheFinished | base/mgr/queue.go:85-85 | the front that Notify removes is the job that just finished |
| JobTheorems.TableIsExact | base/mgr/pm.go:90-106 | the table holds exactly the jobs put into it and not cleaned up, under their ids |
| JobTheorems.NoSendOnClosed | base/mgr/queue.go:31-36 | no send ever meets a closed channel |
| JobTheorems.StuckIff | base/mgr/pm.go:119-137 | with somebody inside, the manager stands still exactly if a job is offered while the loop sleeps, nobody is about to broadcast, and whoever waits for the table lock finds it held |
| JobTheorems.WedgedForever | base/mgr/pm.go:370-377 | from then on, whatever happens outside, the loop sleeps, the offer stands and no job is dispatched |
| JobHistory.BroadcastWakes | base/mgr/pm.go:370-377 | when a worker that was about to broadcast is through, the loop has been awake in between |
| JobHistory.WaitsForAReason | base/mgr/pm.go:124-128 | whenever the loop waits, the table is at its cap, or a clean-up that has taken its job out is still going to broadcast, or the loop missed a broadcast between its test and its sleep |
| JobHistory.ReceivesBelowCap | base/mgr/pm.go:124-128 | before every job it receives the loop has found the table below the cap |
| JobTheorems.NeverStuckBelowCap | base/mgr/pm.go:119-137 | while the table has never reached its cap, whoever is inside the manager means that a step can be taken |
| JobTheorems.AtRestEverythingRuns | base/mgr/pm.go:119-137 | when only events from outside are left, and no job is offered to a sleeping loop, every call has returned, every finished job is gone, and the front of every open queue is running |
| JobTheorems.InternalStepsUseWork | base/mgr/pm.go:79-137 | between two events from outside only finitely many steps can be taken |
| JobTheorems.CapWedges | base/mgr/pm.go:90-102 | a run in which, at the cap, a caller offers its job to the sleeping loop and the clean-up waits for the caller |
| JobTheorems.BelowCapWedges | base/mgr/pm.go:370-377 | a run in which, below the cap, a clean-up offers the next job to the loop before it wakes it |
| JobTheorems.RejectedIdStaysTaken | base/mgr/pm.go:98-104 | a run in which an id refused on a closed queue is refused as a duplicate |
| JobTheorems.RejectedStaysListed | base/mgr/pm.go:93-104 | after a call was refused on a closed queue its job is in the table in every later state, and every call with that id a duplicate |
| PidTable.RunInv | base/mgr/pm.go:139-195 | every reachable state of registering, dying, reaping, waiting and delivering |
| PidTable.WaiterGetsKernelStatus | base/mgr/pm.go:187-195 | the waiter of a registered pid gets the status the kernel reported, whenever the child exits |
| PidTable.ChannelsCloseOnce | base/mgr/pm.go:161-167 | without early reuse, in every run no channel is closed twice or sent on after it was closed |
| PidTable.WaiterIsNeverStranded | base/mgr/pm.go:139-195 | while a waiter waits for a child that has died, some step that moves statuses along can be taken |
| PidTable.InternalStepsUseWork | base/mgr/pm.go:139-195 | between two events from outside only finitely many steps can be taken |
| PidTable.AtRestWaitersHaveTheirStatus | base/mgr/pm.go:139-195 | and when none is left, the waiter of every child that has died has the status the kernel reported |
| PidTable.EarlyReuseLosesStatus | base/mgr/pm.go:164-166 | a pid reused before its entry is deleted can lose its status |
| PidTable.EarlyReuseMisdelivers | base/mgr/pm.go:161-166 | a pid reused before its entry is deleted can get another's status |
| PidTable.EarlyReusePanics | base/mgr/pm.go:161-166 | a pid reused, and reaped again, before its entry is deleted has its status sent on a closed channel |
| BackOff.BackOff.Duration | base/mgr/backoff.go:36-62 | the delay by the policy, with defaults at the first call, and what is remembered for the next |
| BackOff.GrowsIff | base/mgr/backoff.go:53-58 | below the maximum a fast call lengthens the delay exactly when multiplying adds a second |
| BackOff.JobDelaysGrow | base/mgr/backoff.go:36-62 | while a protected job dies quickly its delays strictly grow until they stay at the maximum |
| BackOff.SlowCallForgets | base/mgr/backoff.go:50-61 | after a protected job has lived long enough, its delays are those of a job that has only begun to die, whatever they were before |
| JobLoop.Start | base/mgr/job.go:315-358 | the loop for a plain job runs until the first success or the limit, whichever comes first |
| JobLoop.RunsUntilSuccessOrLimit | base/mgr/job.go:315-358 | in every run, a plain job runs until its first success or max(1, MaxRestart) runs, unless unscheduled |
| JobStops.StoppedIff | base/mgr/job.go:315-358 | whatever the flags, a job has stopped exactly if it was unscheduled while it paused, or a run was decided on while it was neither protected nor recurring that succeeded or used up the limit |
| JobStops.StopsOnlyWhenTold | base/mgr/job.go:323-356 | so a recurring job stops only when unscheduled, and a job protected at its start only when terminated |
| JobStops.NotStoppedGoesOn | base/mgr/job.go:315-358 | a job that has not stopped always has a step of its own to take |
| JobLoop.AtMostOneRunAfterTerminate | base/mgr/job.go:389-393 | whatever the flags, at most one more run begins after Terminate |
| JobLoop.OneRunAfterTerminate | base/mgr/job.go:323-329 | one more run is possible: a protected job sleeping before its respawn |
| JobLoop.OneMoreRunIff | base/mgr/job.go:323-330 | after Terminate one more run begins exactly if the job was sleeping before a respawn, when that sleep is over |
| JobLoop.TerminatedJobStops | base/mgr/job.go:343-358 | after Terminate every step brings the job closer to its end |
| Stream.Consumer.SeekNewLineOrEOF | base/stream/input.go:81-93 | the distance to the next line feed, or to the end if that is the last character or there is none |
| Stream.Consumer.SeekBody | base/stream/input.go:139-183 | where the line or block after a header ends |
| Stream.Consumer.ProcessHeader | base/stream/input.go:130-183 | at a header the text before it is flushed, and its line or terminated block is emitted |
| Stream.Consumer.ProcessText | base/stream/input.go:121-191 | the scanning loop emits the messages of the recursive scan and leaves the block it leaves |
| Stream.Consumer.Process | base/stream/input.go:96-192 | one chunk: an open block is ended or goes on, and what follows is scanned |
| Stream.Consumer.Consume | base/stream/input.go:194-208 | the messages of all the chunks in turn |
| StreamTheorems.NothingLost | base/stream/input.go:96-192 | over any chunks, the payloads in call order with the stripped headers and terminators put back, and the open block at the end, are the input |
| StreamTheorems.HandlerSeesThePieces | base/stream/input.go:96-192 | the handler is called with the emitted pieces, in order, and with nothing else |
| StreamFraming.HeaderOfSlice | base/stream/input.go:68-78 | the text stripped as a header is that header on its own |
| StreamExact.HeaderIff | base/stream/input.go:68-78 | a header is matched exactly where digits and two or three colons stand, with the number read from the left as its level, 65535 at most |
| StreamFraming.EmittedIsFramed | base/stream/input.go:121-183 | whatever the input: non-empty text of the stream's own level, or a header and one line of its level, or a header, one block of its level and a terminator |
| StreamHeaders.NoHeaderMissed | base/stream/input.go:121-191 | whatever the input, no header at the beginning of a line is emitted as text of the stream's own level, but for the first line behind a terminated block |
| StreamExact.ChunkIsRight | base/stream/input.go:121-191 | a chunk is taken apart as described without the scan: own-level text up to the first header that is found where one is looked for, whole lines, blocks up to their first terminator |
| StreamExact.OpenChunkIsRight | base/stream/input.go:97-118 | the same for a chunk that finds a block open |
| StreamExact.OnlyOneWay | base/stream/input.go:121-191 | that description fits only one way to take a chunk apart |
| StreamRoundTrip.BlockTextIff | base/stream/input.go:169-176 | a block text is ended early exactly by a terminator in it or by one less its line feed at its end |
| StreamRoundTrip.HeaderReadsBack | base/stream/input.go:68-78 | a printed header is found, with its level |
| StreamRoundTrip.LineReadsBack | base/stream/input.go:139-162 | a printed line anywhere in a buffer is read as its message, and scanning goes on behind it |
| StreamRoundTrip.BlockReadsBack | base/stream/input.go:168-176 | a printed block at the end of a buffer is read as its message |
| StreamRoundTrip.PrintedMessagesReadBack | base/stream/input.go:96-184 | parsing inverts printing: single-line messages, ended or not by a terminated block, come back with levels and texts |
| StreamBlocks.StaysOpenIff | base/stream/input.go:97-118 | an open block stays open, and only collects, exactly while no chunk ends it |
| StreamBlocks.BlockAcrossChunks | base/stream/input.go:106-114 | an open block ended in a later chunk is one message with all the text between |
| StreamBlocks.BlockEndedByClosing | base/stream/input.go:99-105 | the same when the terminator's line feed was already collected |
| StreamBlocks.PrintedBlockAcrossChunks | base/stream/input.go:96-184 | printed lines and a block header in one chunk, text in any number of chunks, the terminator in a last one: the lines, one message with all the text, and what the rest of that chunk holds |
| StreamBlocks.CutTerminatorIsMissed | base/stream/input.go:99-118 | a terminator cut between its colons leaves the block open |
| StreamBlocks.TextAfterBlockIsPlain | base/stream/input.go:175-176 | text right after a terminated block is emitted at the stream's own level, header or not |
| Condition.ParseOne | base/settings/condition.go:120-173 | the parser as it runs, loop and recursion, gives the result of the parsing function, or says that it would not return |
| Condition.ParseArgs | base/settings/condition.go:135-155 | the loop over an argument list |
| ConditionTheorems.ExamineIsMeaning | base/settings/condition.go:41-105 | an expression without empty positions evaluates, to what and, or, not and keys mean |
| ConditionPanics.PanicsIff | base/settings/condition.go:41-105 | evaluation panics exactly if it gets to an empty argument position: nothing to its left settles the and or the or, and a not has just one argument; otherwise it gives the meaning |
| ConditionPanics.FullTextNeverPanics | base/settings/condition.go:123-155 | what is loaded from a text in which a word follows every opening parenthesis and comma evaluates, to its meaning |
| ConditionPanics.EmptyParenthesesPanic | base/settings/condition.go:123-142 | empty parentheses parse to a nil argument, and evaluating it panics |
| ConditionTheorems.ReadsBack | base/settings/condition.go:120-173 | at any offset, before the end, a comma or a parenthesis, the parser reads a printed expression |
| ConditionTheorems.ListReadsBack | base/settings/condition.go:135-155 | the argument loop reads a printed list |
| ConditionTheorems.PrintedConditionReadsBack | base/settings/condition.go:177-192 | parsing inverts printing |
| ConditionTexts.LoadedIff | base/settings/condition.go:120-192 | a text is loaded, as a condition, exactly if it is empty and the condition is true, or consists of spaces and a layout of words, parentheses, commas and spaces that means the condition |
| ConditionTexts.RefusedWhere | base/settings/condition.go:177-192 | a refused text is reported as garbage from a position inside it on, or as one that ended early |
| ConditionTexts.GarbageBehindWord | base/settings/condition.go:177-192 | behind a word, the next character that is no space is reported as garbage |
| ConditionTexts.GarbageBehindList | base/settings/condition.go:177-192 | behind a whole argument list, anything is |
| ConditionLoops.LoadedConditionReadsBack | base/settings/condition.go:177-192 | whatever was read, without empty positions, reads the same when printed |
| ConditionLoops.NeverReturnsIff | base/settings/condition.go:144-154 | the parser does not return exactly for a text that ends in a comma, spaces aside, and whose argument list a word after it would leave unfinished |
| ConditionLoops.TheCheckReturns | base/settings/condition.go:144-154 | that check is a call that returns |
| Firewall.Nft.Apply | apps/plugins/nft/plugin/manager.go:28-50 | all the rules are added with fresh handles, or none |
| Firewall.Nft.FindAll | apps/plugins/nft/plugin/manager.go:54-81 | the handle of the first rule with each body, or nothing at all |
| Firewall.Nft.Drop | apps/plugins/nft/plugin/manager.go:109-112 | the rule with the handle goes; a missing one is an error |
| Firewall.Nft.DropRules | apps/plugins/nft/plugin/manager.go:84-106 | nothing is dropped unless all is found; then one by one, up to the first failure |
| FirewallTheorems.AllSucceedIff | apps/plugins/nft/plugin/manager.go:96-104 | all the drops succeed exactly if the commands work and no handle comes twice |
| FirewallTheorems.FoundHandles | apps/plugins/nft/plugin/manager.go:66-76 | the handles found are those of rules with these bodies, and differ exactly if the bodies do |
| FirewallTheorems.FindsTheFirst | apps/plugins/nft/plugin/manager.go:66-76 | of several rules with the same body the first one is found |
| FirewallTheorems.OthersKeepTheirRules | apps/plugins/nft/plugin/manager.go:84-106 | a body that the drop commands did not get to loses no rule |
| FirewallTheorems.AskedAreDropped | apps/plugins/nft/plugin/manager.go:84-106 | a body that they got to has lost one rule, however many more succeed |
| PortForward.GetSource | apps/plugins/socat/plugin/rule.go:53-89 | a host is accepted exactly if its port is in 1..65535 and every protocol it names is tcp or udp; the source has the protocols and the address it names, or tcp and any address |
| PortForward.AddingKeepsStep | apps/plugins/socat/plugin/socat.go:109-139 | adding a forward at a free port gives it all its rules and leaves every other forward its own |
| PortForward.DroppingSucceedsIff | apps/plugins/socat/plugin/socat.go:170-238 | dropping forwards succeeds exactly if the ruleset can be read, the commands work, no protocol is doubled and no rule is missing |
| PortForward.FailedDropping | apps/plugins/nft/plugin/manager.go:84-106 | when they fail, the chain still holds nothing the table does not ask for, and exactly the forwards that a command got to are short of a rule now, besides those that were |
| PortForward.DroppingKeepsStep | apps/plugins/socat/plugin/socat.go:170-238 | when the drops succeed the chain holds nothing but what the table without these forwards asks for, and no other forward gains or loses a rule |
| PortForward.RenderAllTimes | apps/plugins/socat/plugin/rule.go:102-109 | the rules rendered for some ports are those the table asks for at these ports |
| SocatManager.Manager.SetPortForward | apps/plugins/socat/plugin/socat.go:94-146 | in any state: refused for a bad host or a taken port; otherwise in the table exactly if the firewall took its rules, no longer reserved, and the chain has gained one rule for each protocol the host names, from the address and port it names, and no other |
| SocatManager.Manager.RemovePortForward | apps/plugins/socat/plugin/socat.go:153-192 | in any state: when it succeeds and what it answers otherwise, and the table and chain after every outcome; none costs another forward or a foreign rule |
| SocatManager.Manager.RemoveAll | apps/plugins/socat/plugin/socat.go:195-239 | in any state: removes exactly the forwards whose identity begins with the namespace, or none of them |
| SocatManager.Manager.Collect | apps/plugins/socat/plugin/socat.go:202-212 | the rules and the ports of the forwards of a namespace |
| SocatManager.Manager.Reserve | apps/plugins/socat/plugin/socat.go:244-308 | the n lowest free ports, reserved from now on; fewer, and an error, if there are fewer |
| SocatManager.Manager.NextFree | apps/plugins/socat/plugin/socat.go:287-297 | the inner loop stops at the first port that is free, or past the last, and skips only taken ones |
| SocatTheorems.StepShort | apps/plugins/socat/plugin/socat.go:94-239 | a call leaves exactly those forwards short of a rule that were, or that it drops a rule of and does not remove |
| SocatTheorems.TornIff | apps/plugins/nft/plugin/manager.go:84-106 | a removal fails after dropping a rule exactly if it goes for a forward, the ruleset can be read and holds every rule, the first command works, and a later one does not or a protocol is doubled |
| SocatTheorems.RunKeeps | apps/plugins/socat/plugin/socat.go:94-239 | after any sequence of calls, however they ended, the chain holds nothing the table does not ask for, and every forward not short of a rule has exactly its own |
| SocatTheorems.ShortIff | apps/plugins/socat/plugin/socat.go:153-239 | a forward is short of a rule exactly if a removal before failed after dropping one of its rules |
| SocatTheorems.InStepIffNeverTorn | apps/plugins/socat/plugin/socat.go:94-239 | chain and table are in step exactly if no removal before failed after dropping a rule |
| SocatTheorems.StaysForGood | apps/plugins/socat/plugin/socat.go:185-239 | a forward short of a rule, or with a doubled protocol, is in the table after any further calls; every removal that goes for it fails, and its port is in use |
| SocatTheorems.RemovableGoes | apps/plugins/socat/plugin/socat.go:153-192 | any other forward goes when its own namespace asks for it and the firewall works |
| SocatTheorems.DoubledProtocolStays | apps/plugins/nft/plugin/manager.go:66-76 | each try at a forward with a doubled protocol costs it a rule while all are found, and changes nothing afterwards |
| Namespaces.IdentityIsExact | apps/plugins/socat/plugin/socat.go:148-168 | for a host port the identity tells namespace and target apart, so the permission test is exact |
| Namespaces.TakenIff | apps/plugins/socat/plugin/socat.go:202-205 | which identities a namespace takes |
| Namespaces.ContainerTakesIff | apps/plugins/containers/plugin/network.go:445-447 | a container's namespace takes another container's forward exactly if its number begins the other's |
| Namespaces.ContainerOneTakesTen | apps/plugins/containers/plugin/network.go:445-447 | container 1 takes the forwards of container 10 |
| Reservation.ReservesTheLowest | apps/plugins/socat/plugin/socat.go:284-307 | ascending free ports, lower than every free one left; short exactly when there are not enough, and then all of them |
| Reservation.ReservationLasts | apps/plugins/socat/plugin/socat.go:292-303 | in every run, a reservation lasts its time unless a forward takes the port |
| Reservation.HandedOutOnce | apps/plugins/socat/plugin/socat.go:241-243 | a port is handed out again only after a forward took it or the reservation's time was over |
| Stats.PeriodIsAligned | apps/plugins/aggregator/plugin/stats.go:33-33 | the period is the time rounded down to a multiple of the duration |
| Stats.Sample.Feed | apps/plugins/aggregator/plugin/stats.go:32-60 | a value opens a new window, returning the old one, or is added to the current one |
| Stats.FeedWindowIs | apps/plugins/aggregator/plugin/stats.go:32-60 | what a window is after a value: begun with it alone if the value is for a later period, and otherwise with the value added |
| Stats.State.FeedAll | apps/plugins/aggregator/plugin/stats.go:149-157 | every duration takes the value, and the windows closed are logged and returned |
| Stats.State.FeedOn | apps/plugins/aggregator/plugin/stats.go:123-158 | the first call, a repeated time, and the difference quotient; what every duration holds afterwards |
| StatsTheorems.FeedCalls | apps/plugins/aggregator/plugin/stats.go:123-158 | any calls on a new state, one after another: what every duration holds, and which windows were returned for it, is what the theorems say about calls |
| StatsTheorems.FedByIs | apps/plugins/aggregator/plugin/stats.go:123-148 | what a call feeds: nothing if its time has not moved on, the value for an average, and for a differential the rate that makes up the change since the previous call |
| StatsTheorems.AverageFeedsAll | apps/plugins/aggregator/plugin/stats.go:123-148 | at increasing times an average is fed every value |
| StatsTheorems.DifferentialFeedsChange | apps/plugins/aggregator/plugin/stats.go:140-142 | at increasing times the values a differential is fed, each over the time since the previous call, add up to the last value less the first |
| StatsTheorems.CallsFeedTheLog | apps/plugins/aggregator/plugin/stats.go:123-158 | a state after any calls is what the log of the fed values makes it |
| StatsTheorems.WindowsRefineTheLog | apps/plugins/aggregator/plugin/stats.go:32-158 | at increasing times each duration holds count, total, maximum and average of exactly the latest aligned window, and the last five before it |
| StatsTheorems.TopIsMaximumIff | apps/plugins/aggregator/plugin/stats.go:52-57 | a window's maximum is that of its values, but before the first whole duration only if one of them is not negative |
| StatsTheorems.NothingIsLost | apps/plugins/aggregator/plugin/stats.go:32-60 | whatever the times, the windows returned by any calls and the current one hold every value fed once, in total and count |
| Plugins.Manager.Open | apps/core0/plugin/manager.go:142-167 | opening a plugin after its requirements, the calls made and the plugins open afterwards |
| Plugins.Manager.OpenRequirements | apps/core0/plugin/manager.go:147-155 | the loop over the requirements |
| Plugins.Manager.Load | apps/core0/plugin/manager.go:177-210 | all the plugins in some order, and the failed ones taken out of the table |
| PluginTheorems.OpensIff | apps/core0/plugin/manager.go:142-167 | a plugin opens exactly if it and all it requires, transitively, exist and open, whatever is open already |
| PluginTheorems.LoadKeepsExactlyWhatLoads | apps/core0/plugin/manager.go:177-210 | whatever the order, the table keeps exactly the plugins whose requirements all exist and open, and those are open |
| PluginTheorems.OpenedOnceAndInOrder | apps/core0/plugin/manager.go:143-165 | a plugin opens successfully at most once, and only after all it requires |
| PluginTheorems.StopsAtFirstFailure | apps/core0/plugin/manager.go:147-165 | opening a plugin stops at the first failure |
| Containers.Manager.GetNextSequence | apps/plugins/containers/plugin/manager.go:307-323 | the first unused number in 1..65534 after the counter, across the wrap-around, whenever there is one, and otherwise no end |
| Containers.Manager.SetContainer | apps/plugins/containers/plugin/manager.go:325-330 | registers a container under its number |
| Containers.Manager.UnsetContainer | apps/plugins/containers/plugin/manager.go:333-338 | the number is free again |
| Containers.Manager.CreateContainer | apps/plugins/containers/plugin/manager.go:436-450 | refused at the limit; otherwise a number no live container has, except with all 65534 numbers in use, when it does not return |
| Containers.UsableIff | apps/plugins/containers/plugin/manager.go:314-321 | there is an unused number exactly below 65534 live containers |
| Containers.NextIsUnique | apps/plugins/containers/plugin/manager.go:314-321 | which number comes next is determined by the counter and the live containers |
| Containers.LimitLeavesANumber | apps/plugins/containers/plugin/manager.go:439-446 | with a limit of at most 65534 a container below the limit always finds a number |
| Containers.AddressesAreApart | apps/plugins/containers/plugin/network.go:426-430 | different numbers have different addresses, none the bridge's; 65534 has the broadcast address |
| Containers.NumberComesBackAfterATurn | apps/plugins/containers/plugin/manager.go:314-322 | a number is given out again only after the counter went all the way round |
| Containers.LiveNumbers | apps/plugins/containers/plugin/network.go:426-430 | in every run live containers have numbers in range and addresses of their own, and a new one gets an address no live one has |
| Containers.Serve | apps/plugins/containers/plugin/manager.go:436-450 | calls of the manager, one after another, make such a run |

## Left out

- Goroutines are actions of state machines, not Dafny methods: a step runs from one point where a goroutine can block to the next, so races inside a step are not part of the model.
- Weights are unbounded integers; the overflow of 64-bit sums is not modelled.
- `sort.Sort` is written out as an insertion sort over `Less` and `Swap`; `SwapRunIsPermutation` covers any other order of swaps.
- In a boot slice, which services' conditions hold and which have a readiness hook are given; parsing and evaluating conditions is modelled on its own, and arguments are not part of the model.
- Inside a slice, `Run` is one step that happens whenever the manager answers, or never; JobTheorems has the manager on its own, and which of its runs a boot leads to is not modelled.
- The hooks of base/pm/runnerhook.go are the actions Ready and Exit of a slice, each taken once; delays and matching of messages are not modelled.
- Networking set-up between the first two stages, and `setupNetworking` retries, are not part of the model.
- The wait on `jobsCond` is split into the test of the table's size, going to sleep, and waking; reading the size without the table's lock is one step.
- Readers of the job table, kill commands and `Processes` are not part of the model.
- SIGCHLD is not modelled as a signal: reaping is possible whenever a child is dead.
- What a job's process does, its timeouts, signals and the race between `Signal` and the closing of its channel are not modelled; a run has an outcome.
- Floats are reals: rounding of back-off factors and of statistics, and NaN, are not modelled.
- Output and conditions are ASCII text; counting by runes for other text is not modelled.
- The read loop of `consume` is modelled as a sequence of chunks; read errors are not part of the model.
- PortForward.GetSource: takes a host string already taken apart, because splitting it and scanning the number is plain text handling; an empty protocol list, which splitting never gives, is refused.
- Rule bodies are structured values, so that two texts are equal exactly if their parts are; the other tables and chains of the firewall are not part of the model.
- A forward's rendered match by address, network or interface name is not told apart: the address text is a part of the body.
- SocatManager.Manager.Reserve: takes the ports that services listen on and the time as parameters, and requires the listening ports to be below 65536, as the kernel's are.
- Stats.State.FeedOn: times and durations are natural numbers and durations positive; a duration of zero divides by zero in the original.
- Plugins.Manager.Load: requires that requirements do not form a cycle, since the original recurses forever on one; reading plugin files and registering handlers are not part of the model.
- Containers.Manager.CreateContainer: takes the number and registers it in one step; where the original's loop goes round forever it says so after one full turn.
- Settings files, extensions, logging, Redis, HTTP, the other plugins and both clients are not part of the model.
