# Verified model of the Satellite Data Model middleware

The Satellite Data Model connects devices and applications on a satellite through a few managers. A Task
Manager schedules tasks on Process Managers and watches whether they are alive. A Process Manager fetches the
code of its tasks, runs them and restarts them when they stop answering. A Data Manager keeps the descriptions
(xTEDS) of every component and tells subscribers about changes. This project models the parts of the three
managers that hold state and proves what every run of them keeps. Check it with `dafny verify dfyconfig.toml`.

Sockets, signals, child processes and files are not modelled. What arrives from them is a parameter of a
method or a step of a machine; the messages that matter to a property are results or a log. Each region that
the Task Manager runs under a mutex is one atomic step, and its threads, each in its own order, are
interleavings of such steps: the Scheduler gives up the table of PMs between the lookups of one search, and a
reset clears the list and the counters in two steps. Only a registration, which takes the same mutex twice, is one step, and it is proved
that nothing is lost by that. In the Process Manager a step is a critical section too, and the thread that
handles signals keeps its order. In the Data Manager a handler is one step.

| file | what it holds |
|---|---|
| `sequences.dfy`, `ids.dfy` | scans, counts and filters; component identifiers |
| `tasks.dfy`, `pm_records.dfy` | the task table and the table of Process Managers, as classes over arrays, each method proved against a function on the table's value |
| `tm_protocol.dfy` | the Scheduler, PMHeartbeat and Listener threads as one machine, and the binding of tasks to registered PMs |
| `tm_conservation.dfy`, `tm_load.dfy` | pids, task names and load counters over all interleavings of that machine |
| `tm_steps.dfy` | what single steps of that machine do to the fields of tasks, records and messages |
| `tm_stages.dfy`, `tm_traces.dfy` | runs of that machine, from the start, in which a property fails where its condition does not hold |
| `load_balance.dfy` | what the scan for a PM achieves |
| `failure_detection.dfy`, `tm_detection.dfy` | when a silent PM is removed: on the table of PMs alone, and in every run of the whole machine |
| `task_manager.dfy` | the handlers as methods on the two tables, each proved to be a step of the machine |
| `code_transfer.dfy`, `transfer_outcomes.dfy` | `SendCode`, `GetCode` and the dispatch of code messages over an unreliable network, with the list of receivers; when a transfer succeeds and fails |
| `segment_builder.dfy`, `segment_transfers.dfy` | the pool of reassembly buffers, and interleaved transfers through it |
| `subscriptions.dfy`, `subscription_effects.dfy`, `subscription_laws.dfy`, `subscription_list.dfy` | the subscription table, what runs of it achieve, what each operation does, and its linked list |
| `provider_subscriptions.dfy` | the provider list with its in-place deletion, and the notices it sends |
| `registry.dfy` | the xTEDS list: slot reuse and sensor ids |
| `pm_process.dfy`, `pm_supervision.dfy`, `pm_process_list.dfy` | timeouts of one process, the supervision machine, and the list and handlers that carry it out |

The pattern is the same throughout. A function gives the effect of an operation on a value; the imperative
method has that function in its `ensures`; lemmas prove about the function what the middleware promises, for
one step and then for every run. Where the code departs from its intent, the code is modelled as it is and the
exact condition under which it meets the intent is proved: see the members whose names end in `Iff`. Where
comments and code disagree the code is followed: the segment lookup scans four of the five slots that
allocation uses; the search for a preferred PM does not look at the in-use flag; a finish report with pid 0
meets the first slot whose pid is 0.

## Model

| member | source | states |
|---|---|---|
| `Tasks.TaskList.AddTo` | sdm/tm/tasklist.cpp:37-48 | the first inactive slot receives the task with its PM binding cleared; refused exactly when no slot is inactive |
| `Tasks.TaskList.RemoveFrom` | sdm/tm/tasklist.cpp:50-57 | the first slot holding the pid is blanked, no other slot changes, and the answer says whether there was one |
| `Tasks.TaskList.TaskFinished` | sdm/tm/tasklist.cpp:83-124 | a normal task leaves the table, an always-running one becomes pending without a pid, any other mode is left alone and reported unknown |
| `Tasks.TaskList.FindPendingTask` | sdm/tm/tasklist.cpp:171-182 | the first pending slot |
| `Tasks.TaskList.PMFailure` | sdm/tm/tasklist.cpp:244-259 | every slot bound to the failed PM becomes pending and keeps all its other fields, and one task error is sent for each, in table order |
| `Tasks.OneErrorPerTask` | sdm/tm/tasklist.cpp:244-259 | for every pid, the task errors sent are as many as the slots of that pid bound to the failed PM |
| `Tasks.TaskList.RemovePreferredPmId` | sdm/tm/tasklist.cpp:220-227 | every active slot that prefers this node loses its preference; inactive slots are untouched |
| `Tasks.TaskList.ClearList` | sdm/tm/tasklist.cpp:126-132 | every slot is blank afterwards |
| `Tasks.TaskList.GetPMAddress` | sdm/tm/tasklist.cpp:290-300 | the PM of the first slot with the pid, and the empty identifier when no slot has it |
| `PmRecords.PMRecordList.AlreadyRegistered` | sdm/tm/pm_record_list.cpp:13-35 | true exactly when some record in use has the address |
| `PmRecords.PMRecordList.RegisterPM` | sdm/tm/pm_record_list.cpp:36-63 | the first free record is taken, with port forced to the PM port and count zero; the heartbeat count of the slot is not touched |
| `PmRecords.PMRecordList.ClearAllRunningTasks` | sdm/tm/pm_record_list.cpp:65-75 | every counter is zero and nothing else changes |
| `PmRecords.PMRecordList.TaskFinished` | sdm/tm/pm_record_list.cpp:77-91 | the counter of the addressed PM falls by one, and no other; the answer says whether the address is registered |
| `PmRecords.PMRecordList.TaskHasStarted` | sdm/tm/pm_record_list.cpp:93-107 | the counter of the addressed PM rises by one, and no other; the answer says whether the address is registered |
| `PmRecords.PMRecordList.FindPMID` | sdm/tm/pm_record_list.cpp:109-130 | the first record with the preferred node id, in use or not; none when no node is preferred |
| `PmRecords.PMRecordList.FindEligiblePM` | sdm/tm/pm_record_list.cpp:134-156 | the first record at or after the persistent index that is in use, has the architecture and operating system asked for and at least the memory, and is within the load; the index moves past it, or back to zero when there is none |
| `PmRecords.PMRecordList.SendHeartbeatToAll` | sdm/tm/pm_record_list.cpp:158-178 | one heartbeat to each registered PM in table order; their counts rise and all other counts become inactive |
| `PmRecords.PMRecordList.HeartbeatReceived` | sdm/tm/pm_record_list.cpp:195-204 | the count of every record at that address returns to zero |
| `PmRecords.PMRecordList.RemoveAnyFailed` | sdm/tm/pm_record_list.cpp:206-224 | the first registered PM with two unanswered heartbeats is removed and returned, if there is one |
| `PmRecords.PMRecordList.IsEmpty` | sdm/tm/pm_record_list.cpp:242-257 | true exactly when no record is in use |
| `PmRecords.PMRecordList.ChoosePM` | sdm/tm/tm.cpp:1591-1596 | the loop over growing loads finds what the specification of the search finds |
| `PmRecords.RegisteredRecord` | sdm/tm/pm_record_list.cpp:36-63 | a registration with room takes a free record: the address, the PM port, the resources announced, no tasks; nothing else changes |
| `PmRecords.PreferredHasNode` | sdm/tm/pm_record_list.cpp:109-130 | the lookup by node finds a record with that node id, or there is none |
| `PmRecords.HeartbeatsReachRegistered` | sdm/tm/pm_record_list.cpp:158-178 | a round sends each identifier as many heartbeats as there are registered PMs with it |
| `LoadBalance.LookupFits` | sdm/tm/pm_record_list.cpp:134-156 | one lookup finds a registered PM of the right architecture and operating system, with at least the memory and within the load, or there is none from the index on |
| `LoadBalance.ChosenSucceedsIff` | sdm/tm/tm.cpp:1591-1596 | an uninterrupted search succeeds exactly when such a PM has fewer than fifty tasks |
| `LoadBalance.MoreMemoryFinds` | sdm/tm/pm_record_list.cpp:134-156 | more memory in a PM never turns a find into a miss |
| `LoadBalance.ChosenIsNearMinimum` | sdm/tm/tm.cpp:1591-1596 | from any persistent index and with no other thread between its lookups, the search succeeds if and only if some suitable PM has fewer than MAX_JOBS tasks, and what it picks has room and carries at most one task or no more than any other suitable PM |
| `LoadBalance.PickedLoad` | sdm/tm/pm_record_list.cpp:134-156 | the picked PM carries at most one task more than the least loaded suitable PM, and no more than it when that load is positive |
| `LoadBalance.ChosenFromStart` | sdm/tm/pm_record_list.cpp:134-156 | the same search from the start of the table picks a least loaded suitable PM above the starting load, and fails only when nobody has room |
| `LoadBalance.PlacedEffect` | sdm/tm/tm.cpp:1591-1647 | one scheduling decision over equally eligible PMs changes nothing or adds one task to one nearly least loaded PM |
| `LoadBalance.PlacedKeepsSpread` | sdm/tm/tm.cpp:1591-1647 | one decision keeps a load spread of two and changes no record but for its counter |
| `LoadBalance.RunKeepsSpread` | sdm/tm/tm.cpp:1513-1677 | any run of scheduling decisions over equally eligible PMs keeps a load spread of two |
| `LoadBalance.SpreadOfOneIsNotKept` | sdm/tm/pm_record_list.cpp:134-156 | a concrete table with spread one that a single decision widens, so two is the best bound |
| `LoadBalance.LoadedAt` | sdm/tm/pm_record_list.cpp:77-107 | with unique addresses, counting at an address changes that record and no other |
| `TmProtocol.StepKeepsSound` | sdm/tm/tm.cpp:1534-1661 | every step of every thread keeps the binding invariant: scheduled tasks and the Scheduler only hold PMs that are registered or whose failure is being handled; the one step that needs an assumption is the wake from a sleep |
| `TmProtocol.RunKeepsSound` | sdm/tm/tm.cpp:1534-1661 | the same for every run from a sound state whose wakes are safe |
| `TmProtocol.NoTaskBoundToRemovedPm` | sdm/tm/tm.cpp:1804-1816 | from the start and in every interleaving whose sleeping Scheduler wakes to a PM still accounted for, once no failure is half handled no scheduled task with a binding is bound to a PM that is not registered, whenever that PM was removed |
| `TmProtocol.PromptTasksStayBound` | sdm/tm/tm.cpp:1534-1661 | the same in every interleaving at all, when no posted task has a scheduling interval |
| `TmProtocol.PromptRunIsSafe` | sdm/tm/tm.cpp:1611-1629 | without scheduling intervals the Scheduler never sleeps with a PM in mind |
| `TmTraces.SleeperArises` | sdm/tm/tm.cpp:1611-1661 | a concrete run, for every interval, in which a task ends up scheduled on a removed PM, with no failure left to handle; if the PM then registers again, its counter is zero with a task scheduled on it |
| `TmProtocol.OnlySleepersThrow` | sdm/tm/tasklist.cpp:302-311 | in every run at all, the Scheduler finds the slot of its task inactive only after a sleep |
| `TmProtocol.ThrowIsFinal` | sdm/tm/tm.cpp:1629-1633 | if it does, the index throws: in every continuation the Scheduler takes no step, and neither it nor the list changes |
| `TmTraces.ThrowArises` | sdm/tm/tm.cpp:1611-1633 | a concrete run, for every interval, that ends so: the list is cleared after the Scheduler has looked for a reset and before it takes the list mutex again |
| `TmProtocol.CommitIsSafeIff` | sdm/tm/tm.cpp:1649-1651 | the commit keeps the binding invariant exactly when the PM picked earlier is still registered or its failure is still to be handled |
| `TmProtocol.PreferredPmIsRegistered` | sdm/tm/pm_record_list.cpp:109-130 | although the lookup by node id ignores the in-use flag, the PM it finds is registered, because removal clears the resources |
| `TmProtocol.ChosenIsSuitable` | sdm/tm/pm_record_list.cpp:134-156 | whatever the loads, a PM found by the load search is registered, has the architecture and operating system asked for, and at least the memory |
| `TmProtocol.ChoiceIsRegistered` | sdm/tm/tm.cpp:1550-1606 | by preference or by load, an uninterrupted search only finds registered PMs |
| `TmProtocol.SearchFindsRegistered` | sdm/tm/tm.cpp:1553-1596 | each single lookup changes at most the persistent index and only finds registered PMs |
| `TmProtocol.SoughtIsChosen` | sdm/tm/tm.cpp:1591-1596 | lookups that nobody interrupts find what the specification of the whole search chooses |
| `TmProtocol.UnknownStaysUnknown` | sdm/tm/tm.cpp:737-748 | between the check of a registration and its entry no other thread makes the address known |
| `TmProtocol.RegisteredKeepsBook` | sdm/tm/tm.cpp:721-764 | registering keeps one record per address and unregisters nobody |
| `TmProtocol.RemovalKeepsBook` | sdm/tm/pm_record_list.cpp:206-224 | removing a failed PM leaves every other PM registered and nobody else at its address |
| `TmSteps.PostedTaskEnters` | sdm/tm/tm.cpp:2438-2475 | a posted task enters an inactive slot with all that it was posted with, pending, without a pid or a PM |
| `TmSteps.RecoveredTaskEnters` | sdm/tm/tm.cpp:1469-1477 | a task reported running enters as a normal task, scheduled under its pid and on no PM |
| `TmSteps.FinishedTaskLeaves` | sdm/tm/tasklist.cpp:83-124 | a finish report takes a normal task off the list, leaves an always-running one pending without a pid, any other mode as it was, and no other task changes |
| `TmSteps.RemovedTaskIsBlank` | sdm/tm/tasklist.cpp:50-57 | a removal blanks the first slot with the pid and no other |
| `TmSteps.FailureRequeues` | sdm/tm/tasklist.cpp:244-259 | a failure puts exactly the tasks bound to the failed PM back to pending and keeps all else about them |
| `TmSteps.ErrorsNameTheFailedPm` | sdm/tm/tasklist.cpp:244-259 | each task error carries the failed PM as its source, with the pid of a task bound to it |
| `TmSteps.LookTakesFirstPending` | sdm/tm/tm.cpp:1534-1549 | an idle Scheduler takes up the first pending task exactly when there is one and a PM is registered |
| `TmSteps.PreferenceIsMetIff` | sdm/tm/tm.cpp:1550-1582 | a task with a preference is picked for exactly when a PM with that node id is registered |
| `TmSteps.SearchPicksFitting` | sdm/tm/tm.cpp:1553-1596 | every lookup of every run picks a registered PM that is the preferred node, or has the right kind, enough memory and a load within the limit |
| `TmSteps.SchedulingBinds` | sdm/tm/tm.cpp:1632-1661 | from the pick to the commit: the task is scheduled on the picked PM under the next pid, without its interval and otherwise as it was, and one task more is counted on that PM and no other |
| `TmSteps.PreferenceIsDropped` | sdm/tm/tasklist.cpp:220-227 | a dropped preference is cleared on every active task that has it, and nothing else changes |
| `TmSteps.SleeperStartsOverIff` | sdm/tm/tm.cpp:1611-1625 | a reset during the sleep is not missed: whatever other threads do, the Scheduler starts over exactly when the mark was set before or the list was cleared meanwhile |
| `TmConservation.StepKeepsPids` | sdm/tm/tm.cpp:1463-1477 | valid pids stay distinct and below the next pid through every step, sleeps and half-done recoveries included, if running-task reports name pids that no slot holds |
| `TmConservation.RunKeepsPids` | sdm/tm/tm.cpp:1632-1634 | the same over every run, for pending tasks that keep an old pid, resets and reports alike |
| `TmConservation.RecoverKeepsPidsIff` | sdm/tm/tm.cpp:1471-1477 | listing a reported task keeps pids distinct exactly when its pid is fresh or invalid, or the table has no room for it |
| `TmConservation.PidLookupIsUnambiguous` | sdm/tm/tasklist.cpp:50-57 | in every run a lookup by a valid pid stops at the only slot that holds it, and that pid was already given out |
| `TmConservation.StepKeepsSlots` | sdm/tm/tasklist.cpp:126-132 | every step keeps inactive slots blank, whatever the Scheduler wakes to |
| `TmConservation.StepConservesTasks` | sdm/tm/tasklist.cpp:83-124 | for every name, one step changes the number of tasks by exactly what is posted or recovered, finished as a normal task, or reset |
| `TmConservation.RunConservesTasks` | sdm/tm/tasklist.cpp:37-57 | the same balance over every run, with no assumption about wakes |
| `TmConservation.NoTaskIsLost` | sdm/tm/tm.cpp:2438-2475 | from the start and in every interleaving at all, the tasks of a name in the table and those that left it add up to those accepted |
| `TmConservation.FailureKeepsInactive` | sdm/tm/task.cpp:23-64 | the failure of a PM turns no inactive slot pending, because inactive slots carry a cleared PM, and renames none |
| `TmLoad.StepChangesExpectation` | sdm/tm/tm.cpp:1404-1415 | every step but the first half of a reset changes the load expected at an address by exactly the start or the finish that it counts there |
| `TmLoad.StepKeepsDrift` | sdm/tm/pm_record_list.cpp:77-107 | while a PM stays registered, no step but the two halves of a reset changes by how much its counter differs from the tasks scheduled on it |
| `TmLoad.NewPmHasNoDrift` | sdm/tm/pm_record_list.cpp:36-63 | a PM that registers starts with a right counter, unless its own failure is half handled |
| `TmLoad.StepKeepsBalanced` | sdm/tm/tm.cpp:1404-1415 | every step keeps every counter right, up to a start or a finish that is half counted and a reset that is half done |
| `TmLoad.RunKeepsBalanced` | sdm/tm/tm.cpp:1646-1651 | the same over every run in which PMs report only what is theirs and resets are clean |
| `TmLoad.CountersMatchTasks` | sdm/tm/pm_record_list.cpp:77-107 | in every such run from the start, at rest, each registered PM's counter is the number of tasks scheduled on it |
| `TmLoad.ResetKeepsLoadIff` | sdm/tm/tm.cpp:1016-1024 | the second half of a reset leaves every counter right exactly when no task is scheduled or counted on a registered PM at that moment, but for one already discounted by the report in hand |
| `TmLoad.ResetErrorStaysIff` | sdm/tm/tm.cpp:1016-1024 | until the next reset, and while the PM stays registered, its counter is right at rest exactly when nothing was scheduled or counted on it when the reset cleared the counters |
| `TmLoad.ResetListEmpties` | sdm/tm/tm.cpp:1016-1021 | the first half of a reset leaves no load expected anywhere and every counter as it was |
| `TmLoad.ResetCountersDrift` | sdm/tm/tm.cpp:1024 | the second half makes every counter zero, and so wrong by what is expected at its address |
| `TmTraces.ResetRaceArises` | sdm/tm/tm.cpp:1016-1024 | a concrete run of faithful steps in which the Scheduler works between the halves of a reset: at rest a counter is zero with a task scheduled, and the finish of that task takes it below zero |
| `TmTraces.FinishRaceArises` | sdm/tm/tm.cpp:1016-1024 | a concrete run of faithful steps in which a finish is counted between the halves of a reset and its start after them: the counter stays one too high |
| `TmLoad.QuietRunIsClean` | sdm/tm/tm.cpp:1016-1024 | if no start and no finish is counted between the halves of any reset, every reset clears the counters when nothing is scheduled or counted |
| `TmLoad.QuietCountersMatch` | sdm/tm/pm_record_list.cpp:65-107 | in every such run from the start, at rest, each registered PM's counter is the number of tasks scheduled on it |
| `TmLoad.ExpectedIsZeroIff` | sdm/tm/pm_record_list.cpp:77-107 | the load expected at an address is zero exactly when no task counts there, or exactly one does and its report has been discounted; when the Scheduler is idle and no report is in hand, exactly when no slot is scheduled there |
| `TmLoad.FinishKeepsLoadIffModeIsKnown` | sdm/tm/tasklist.cpp:83-124 | after the PM was discounted, the finish of a scheduled task keeps the counters right exactly when its mode is one of the two that the table handles |
| `TmTraces.UnknownModeArises` | sdm/tm/tasklist.cpp:83-124 | a concrete run, for every other mode, after which a counter is too low |
| `TmLoad.ReportChangesDrift` | sdm/tm/tm.cpp:1404-1415 | a finish report, whatever it says, lowers the counter where it comes from and the tasks scheduled where its pid first stands |
| `TmLoad.ReportKeepsLoadIff` | sdm/tm/tm.cpp:1404-1415 | so it keeps the counters right exactly when of all registered PMs the reporting one, and no other, is where the first slot with the pid is scheduled in a known mode |
| `TmLoad.ReportErrorStaysIff` | sdm/tm/tm.cpp:1404-1415 | while a PM stays registered and nobody resets, its counter is right at rest after such a report exactly when the report came from it and named a task on it, or neither |
| `TmTraces.DuplicateReportArises` | sdm/tm/tm.cpp:1404-1415 | a concrete run in which the same finish report arrives twice: at rest the counter is -1 |
| `TmLoad.RecoveryChangesDrift` | sdm/tm/tm.cpp:1462-1486 | a running-task report raises the counter of its PM by one, and schedules its task on no PM |
| `TmLoad.RecoveryKeepsLoadIff` | sdm/tm/tm.cpp:1462-1486 | so it keeps the counters equal to the bound tasks exactly when its PM is not registered, but for a PM with the address zero of an unbound task |
| `TmLoad.RecoveredFinishSettles` | sdm/tm/tm.cpp:1404-1486 | round trip: a task recovered under a fresh pid and then reported finished by the same PM leaves every counter as far off as it was |
| `TmTraces.RecoveredTaskArises` | sdm/tm/tm.cpp:1462-1486 | a concrete run, for every task, after which a task is counted on a PM and bound to none |
| `TmLoad.RegisterKeepsLoadIff` | sdm/tm/pm_record_list.cpp:36-63 | registering keeps the counters right exactly when no task is scheduled or counted at that address, or exactly one and its report has been discounted |
| `TmLoad.HandlingRepairsIff` | sdm/tm/tasklist.cpp:244-259 | handling the failure of a PM that has registered again makes its counter right exactly when the counter is the number of tasks bound there under another identifier: for one that returned as itself, exactly when no start was counted since |
| `TmTraces.ReturningPmArises` | sdm/tm/tm.cpp:1804-1816 | a concrete run in which a failed PM registers again too early: its counter is wrong, and right once the failure is handled |
| `TmTraces.ReturningPmStaysWrong` | sdm/tm/tm.cpp:1804-1816 | a concrete run in which a start counted after that leaves the counter wrong for good |
| `TmLoad.FinishMeetsExpectation` | sdm/tm/tasklist.cpp:83-124 | taking the task off the list settles the discount made when its report arrived, for every address |
| `TmLoad.NothingExpectedAt` | sdm/tm/pm_record_list.cpp:36-63 | at an address where nobody is registered and no failure is half handled nothing is scheduled |
| `TmLoad.StepKeepsTaskInHand` | sdm/tm/tm.cpp:1611-1651 | unless tasks are recovered, a Scheduler that wakes finds its slot pending or given up, never scheduled, and what it then sends is pending |
| `TmLoad.FailureKeepsExpectation` | sdm/tm/tasklist.cpp:244-259 | putting the tasks of a failed PM back to pending changes the load expected at no other address |
| `TmLoad.ReachableSearchIsFair` | sdm/tm/tm.cpp:1591-1596 | in every such run no counter is negative when the Scheduler starts a search, so an uninterrupted one succeeds exactly when a suitable PM has room and picks a nearly least loaded one |
| `TmLoad.CountersAreNonNegative` | sdm/tm/pm_record_list.cpp:77-107 | a right counter is below zero only while a task is sent or counted |
| `FailureDetection.DetectionIsTwoSided` | sdm/tm/tm.cpp:1746-1821 | after any legal run the next PM to be removed has left exactly two or three rounds unanswered since its last reply or registration, and when the removal loop ends nobody who missed three is left |
| `FailureDetection.RunKeepsConsistent` | sdm/tm/pm_record_list.cpp:158-224 | in every legal run a registered PM's count is its number of missed rounds or one less |
| `FailureDetection.StepKeepsConsistent` | sdm/tm/pm_record_list.cpp:158-224 | the same for each round, reply, registration and removal |
| `FailureDetection.SweepTerminates` | sdm/tm/tm.cpp:1804-1816 | each turn of the removal loop leaves one PM fewer to remove, and replies and registrations in between add none |
| `FailureDetection.FreshPmIsDueIffSlotWasVacated` | sdm/tm/pm_record_list.cpp:36-63 | a PM that has just registered is already due for removal exactly when its slot was vacated since the last round began |
| `FailureDetection.VacatedSlotArises` | sdm/tm/tm.cpp:1746-1821 | a concrete run in which that happens |
| `FailureDetection.ThreeRoundsArise` | sdm/tm/pm_record_list.cpp:158-178 | a concrete run in which a PM is due only after three rounds |
| `TmDetection.StepIsObserved` | sdm/tm/tm.cpp:1746-1821 | every step of the whole machine is a round, reply, registration or removal of the observed table, or leaves its PMs and heartbeat counts alone |
| `TmDetection.RunIsObserved` | sdm/tm/tm.cpp:1746-1821 | the same over every run, each round starting after the removal loop found nobody |
| `TmDetection.DetectionIsTwoSided` | sdm/tm/tm.cpp:1746-1821 | in every interleaving of the three threads the PM that is removed next has left two or three rounds unanswered, and no registered PM more than two once the loop has ended |
| `TaskManagers.TaskManager.PostTask` | sdm/tm/tm.cpp:2438-2475 | posting is the machine's step: a pending task without a pid enters, if there is room |
| `TaskManagers.TaskManager.RegPMHandler` | sdm/tm/tm.cpp:721-748 | registration is the machine's step: known addresses change nothing |
| `TaskManagers.TaskManager.CountFinished` | sdm/tm/tm.cpp:1404-1408 | the first half of a finish report is the machine's step |
| `TaskManagers.TaskManager.ListFinished` | sdm/tm/tm.cpp:1410-1415 | the second half is the machine's step |
| `TaskManagers.TaskManager.RecoverPid` | sdm/tm/tm.cpp:1463-1466 | the pid region of a running-task report is the machine's step |
| `TaskManagers.TaskManager.RecoverTask` | sdm/tm/tm.cpp:1469-1477 | its list region is the machine's step |
| `TaskManagers.TaskManager.RecoverStart` | sdm/tm/tm.cpp:1482 | its count on a registered PM is the machine's step |
| `TaskManagers.TaskManager.PMRunningTaskHandler` | sdm/tm/tm.cpp:1448-1482 | uninterrupted, the report is those three steps |
| `TaskManagers.TaskManager.SchedulerLook` | sdm/tm/tm.cpp:1534-1549 | the look at the list is the machine's step |
| `TaskManagers.TaskManager.SchedulerSearch` | sdm/tm/tm.cpp:1551-1606 | one lookup is the machine's step |
| `TaskManagers.TaskManager.SchedulerPick` | sdm/tm/tm.cpp:1534-1606 | uninterrupted, look and lookups are the whole search |
| `TaskManagers.TaskManager.SchedulerSleep` | sdm/tm/tm.cpp:1611-1614 | the sleep of a task with an interval is the machine's step |
| `TaskManagers.TaskManager.SchedulerCheckReset` | sdm/tm/tm.cpp:1616-1625 | the check for a reset after the sleep is the machine's step |
| `TaskManagers.TaskManager.SchedulerResume` | sdm/tm/tm.cpp:1627-1628 | taking the list mutex again is the machine's step |
| `TaskManagers.TaskManager.SchedulerSend` | sdm/tm/tm.cpp:1632-1643 | nothing is sent exactly when the slot went inactive during a sleep, and then nothing changes; otherwise the task gets the next pid, and the message sent is the Scheduler's copy of the task under that pid, which is the task in the table unless the Scheduler has slept |
| `TaskManagers.TaskManager.SchedulerCount` | sdm/tm/tm.cpp:1646 | counting the start is the machine's step |
| `TaskManagers.TaskManager.SchedulerCommit` | sdm/tm/tm.cpp:1649-1661 | scheduling the task on the remembered PM is the machine's step |
| `TaskManagers.TaskManager.DropPreferredPm` | sdm/tm/tm.cpp:1570 | dropping a preference is the machine's step |
| `TaskManagers.TaskManager.HeartbeatRound` | sdm/tm/tm.cpp:1746 | a round is the machine's step, and names exactly the registered PMs in order |
| `TaskManagers.TaskManager.HeartbeatReply` | sdm/tm/tm.cpp:1794 | a reply is the machine's step |
| `TaskManagers.TaskManager.RemoveFailedPm` | sdm/tm/pm_record_list.cpp:206-224 | one removal is the machine's step, and finds nobody only when nobody is due |
| `TaskManagers.TaskManager.HandleFailedPm` | sdm/tm/tm.cpp:1812-1816 | handling the failure is the machine's step, and sends one task error for each task of the PM |
| `TaskManagers.TaskManager.RemoveOneFailedPm` | sdm/tm/tm.cpp:1804-1816 | one turn of the loop is a removal and its handling, and leaves one PM fewer to remove, or ends the loop |
| `TaskManagers.TaskManager.RemoveFailedPms` | sdm/tm/tm.cpp:1804-1816 | run alone, the loop ends, no PM due for removal is left, and every bound scheduled task is bound to a registered PM |
| `TaskManagers.TaskManager.ClearTasks` | sdm/tm/tm.cpp:1016-1021 | the first region of a reset is the machine's step |
| `TaskManagers.TaskManager.ClearCounters` | sdm/tm/tm.cpp:1024 | the second region is the machine's step |
| `TaskManagers.TaskManager.ResetAll` | sdm/tm/tm.cpp:1016-1024 | uninterrupted, a reset is those two steps |
| `CodeTransfer.NumSegmentsIsExactIff` | sdm/tm/tm.cpp:2368-2370 | the announced count is the number of segments exactly for files of at most 65535 segments |
| `CodeTransfer.SendSegment` | sdm/tm/tm.cpp:2373-2389 | the reply to a request is the segment at its offset with the announced count |
| `CodeTransfer.SendWholeFile` | sdm/tm/tm.cpp:2391-2423 | streaming sends as many packets as the file has segments, their payloads joined are the file, and each is what the single-segment branch sends for its number |
| `CodeTransfer.GetCode` | sdm/pm/pm.cpp:290-351 | the receiving loop does what the specification does with the same arrivals, requests the segment it is waiting for in each turn, and tells the return that skips the clean-up from the others |
| `CodeTransfer.HandleReply` | sdm/pm/pm.cpp:315-350 | one read writes the awaited segment at its offset, skips code for another request, and fails on anything else |
| `CodeTransfer.TransferIsSafe` | sdm/pm/pm.cpp:290-351 | whatever the network loses, delays, repeats or reorders, before each request the receiver holds exactly the segments before it, and after success the whole file if and only if it has at most 65535 segments |
| `CodeTransfer.AbsorbAllKeepsInStep` | sdm/pm/pm.cpp:290-351 | the receiver stays in step with the sender over every sequence of authentic arrivals |
| `CodeTransfer.SegmentExtendsPrefix` | sdm/pm/pm.cpp:344-349 | writing segment s by seek after the first s - 1 segments gives the first s segments |
| `CodeTransfer.AnswersComplete` | sdm/pm/pm.cpp:290-351 | if each request is answered once, the transfer succeeds |
| `CodeTransfer.ZeroCountNeverSucceeds` | sdm/pm/pm.cpp:337-342 | a file announced with no segments is never received, whatever arrives |
| `CodeTransfer.RoundTripIff` | sdm/tm/tm.cpp:2368-2423 | some behaviour of the network delivers the sender's file if and only if it is not empty and has at most 65535 segments |
| `CodeTransfer.HandleCodeMessage` | sdm/pm/pm.cpp:193-225 | a code message goes to the first receiver waiting for its file, or nowhere |
| `CodeTransfer.RemoveCodeReceiver` | sdm/pm/pm_main.cpp:1542-1558 | the first receiver for the file is taken out, whichever transfer has ended |
| `CodeTransfer.StepOnOneFile` | sdm/pm/pm.cpp:193-225 | the receivers of one file are served as a queue: entered at the back, packets and removals to the front, and what happens to other files changes nothing |
| `CodeTransfer.PipesSeparateFiles` | sdm/pm/pm.cpp:193-225 | over any run in which no transfer of a file ends, the first receiver for it gets exactly the packets of that file, in order, and every other receiver for it nothing |
| `CodeTransfer.NewReceiverGets` | sdm/pm/pm_main.cpp:1176-1188 | a new receiver gets all packets of its file if nobody waited for the file before it, otherwise none |
| `CodeTransfer.TransferThroughPipeIsSafe` | sdm/pm/pm.cpp:193-351 | a transfer that reads from its own pipe is safe if the packets of its file are answers to some request, whatever packets of other files arrive and whatever other transfers start and end |
| `CodeTransfer.AbortsIff` | sdm/pm/pm.cpp:337-342 | some behaviour of the network takes the return that skips the clean-up exactly when the announced count is zero, and then the file on disk is empty, so that it is fetched again |
| `CodeTransfer.NoReceiverIsLeftIff` | sdm/pm/pm.cpp:337-355 | a transfer that was alone for its file leaves no receiver behind exactly when it did not take that return |
| `CodeTransfer.StaleEntryStarves` | sdm/pm/pm.cpp:337-342 | behind such an entry no later receiver for the file reads a packet or succeeds, until some transfer of the file ends |
| `TransferOutcomes.FailsIff` | sdm/pm/pm.cpp:290-351 | a transfer fails if and only if, before it ends, a read gives no code or a poll misses for the eleventh time |
| `TransferOutcomes.StrayIsSkipped` | sdm/pm/pm.cpp:333-336 | a segment with another number than the awaited one leaves the transfer where it would be without it |
| `TransferOutcomes.ReceivedIff` | sdm/pm/pm.cpp:290-351 | if only answers arrive and at most ten polls miss, the transfer never fails, and it has succeeded exactly when all segments have arrived in order, with anything repeated or late in between |
| `TransferOutcomes.AnsweredTransferArrives` | sdm/pm/pm.cpp:193-351 | round trip through the dispatch: the replies to the requests go by their name to the receiver, which ends with the file that was sent |
| `SegmentBuilder.XtedsSegmentBuilder.FindNodeEntry` | sdm/dm/xTEDSSegmentBuilder.cpp:242-254 | the first live node of the sender among the first four slots |
| `SegmentBuilder.XtedsSegmentBuilder.AddSegmentNode` | sdm/dm/xTEDSSegmentBuilder.cpp:204-234 | the first free slot of all five is taken and cleared |
| `SegmentBuilder.XtedsSegmentBuilder.DeleteNode` | sdm/dm/xTEDSSegmentBuilder.cpp:262-273 | the sender's scanned node is freed and nothing else changes |
| `SegmentBuilder.XtedsSegmentBuilder.IsInOrder` | sdm/dm/xTEDSSegmentBuilder.cpp:283-296 | true exactly when all segments before this one have arrived and none from it on |
| `SegmentBuilder.XtedsSegmentBuilder.ApplySegment` | sdm/dm/xTEDSSegmentBuilder.cpp:38-112 | the pool and the answer are those of the specification, through every refusal |
| `SegmentBuilder.XtedsSegmentBuilder.CheckIsFinished` | sdm/dm/xTEDSSegmentBuilder.cpp:121-137 | true exactly when the sender has a scanned node with every announced segment |
| `SegmentBuilder.XtedsSegmentBuilder.GetFullxTEDS` | sdm/dm/xTEDSSegmentBuilder.cpp:149-176 | the document if it is complete and fits; the slot is freed either way |
| `SegmentTransfers.SegmentForNode` | sdm/dm/xTEDSSegmentBuilder.cpp:96-112 | with k segments held, segment k extends the node, an earlier one is accepted without effect, and a later one is refused |
| `SegmentTransfers.FirstSegmentIsTrackedIff` | sdm/dm/xTEDSSegmentBuilder.cpp:61-92 | a new transfer is tracked exactly when one of the four scanned slots is free and the document has at most four segments |
| `SegmentTransfers.ArrivalKeepsPool` | sdm/dm/xTEDSSegmentBuilder.cpp:38-112 | any honest segment leaves every scanned node holding a prefix of its sender's document, and one node per sender |
| `SegmentTransfers.StepKeepsPool` | sdm/dm/xTEDSSegmentBuilder.cpp:38-176 | the same for deliveries and for a sender that starts a new document |
| `SegmentTransfers.RunKeepsPool` | sdm/dm/xTEDSSegmentBuilder.cpp:38-176 | in every interleaving of senders and retransmissions each scanned live node is exactly the first k segments of its sender's document, no sender has two, and the fifth slot holds no more than one segment |
| `SegmentTransfers.OtherSendersUntouched` | sdm/dm/xTEDSSegmentBuilder.cpp:38-176 | nothing that arrives or is delivered for one sender changes a node of another, in any of the five slots |
| `SegmentTransfers.DeliveredIffComplete` | sdm/dm/xTEDSSegmentBuilder.cpp:149-176 | a document is delivered exactly when the node holds all of it and it fits, is then the whole document in order, and frees the slot |
| `SegmentTransfers.BufferIsNeverOverrun` | sdm/dm/xTEDSSegmentBuilder.cpp:84-109 | no reachable live node, in any of the five slots, holds more text than its buffer |
| `SegmentTransfers.WholeTransferIsDelivered` | sdm/dm/xTEDSSegmentBuilder.cpp:38-176 | round trip: a document of at most four segments that finds a scanned slot free is delivered as it was sent |
| `SegmentTransfers.ArrivalsComplete` | sdm/dm/xTEDSSegmentBuilder.cpp:96-112 | a node that is sent the rest of its document in order ends with all of it |
| `SegmentTransfers.FifthSlotIsNeverFreed` | sdm/dm/xTEDSSegmentBuilder.cpp:204-254 | once taken, the slot that allocation uses but no lookup scans stays taken, unchanged, through every run |
| `SegmentTransfers.ContinuationIsAcceptedIff` | sdm/dm/xTEDSSegmentBuilder.cpp:38-112 | for a sender with a node, any message at all is accepted exactly when its numbers make sense and it repeats an arrived segment or follows the last one, and is stored exactly when it follows |
| `SegmentTransfers.StartIsAcceptedIff` | sdm/dm/xTEDSSegmentBuilder.cpp:38-92 | for a sender without one, exactly when it is the first of at most four segments and some slot is free |
| `SegmentTransfers.RefusalTakesFifthSlot` | sdm/dm/xTEDSSegmentBuilder.cpp:61-92 | a refusal changes which slots are in use exactly when the document is announced too large and only the fifth slot was free, which it then takes |
| `Subscriptions.Written` | sdm/dm/SubscriptionList.cpp:361-393 | an entry rewritten for a key is live and has that key, whatever fields its last use left in it |
| `Subscriptions.EnteredAt` | sdm/dm/SubscriptionList.cpp:144-155 | an add takes the first hole, or one new node, and changes no other entry |
| `Subscriptions.AddedKeepsSound` | sdm/dm/SubscriptionList.cpp:119-178 | adding keeps live keys distinct and ends with the key live |
| `Subscriptions.FirstIsOnly` | sdm/dm/SubscriptionList.cpp:475-550 | with distinct keys, removing the first match and removing every match are the same |
| `Subscriptions.SingleCancelIsExact` | sdm/dm/SubscriptionList.cpp:475-550 | a single ReqReg cancel removes the FUTURE and the CANCELLATION entry of exactly this selector, and no other entry |
| `Subscriptions.WildcardKeepsSound` | sdm/dm/SubscriptionList.cpp:409-454 | cancelling everything of a subscriber never leaves a CANCELLATION entry without its FUTURE entry |
| `Subscriptions.CancelKeepsSound` | sdm/dm/SubscriptionList.cpp:202-268 | the same for every kind of cancel |
| `Subscriptions.RequestKeepsSound` | sdm/dm/SubscriptionList.cpp:293-396 | a request makes live exactly what was live and what it asks for, for a ReqReg with cancellations both entries, and keeps the table sound |
| `Subscriptions.UnsubscribedKeepsSound` | sdm/dm/DM.cpp:2943-2981 | the DM's own cancel keeps the table sound |
| `Subscriptions.StepKeepsSound` | sdm/dm/SubscriptionList.cpp:202-268 | every operation keeps live keys distinct and each CANCELLATION entry with its FUTURE entry |
| `Subscriptions.RunKeepsSound` | sdm/dm/SubscriptionList.cpp:119-178 | the same over every run of adds and removes |
| `SubscriptionEffects.NodesEqualPeak` | sdm/dm/SubscriptionList.cpp:144-155 | over every run the list is as long as the most entries that were ever live at once, or as it was at the start |
| `SubscriptionEffects.StepGrows` | sdm/dm/SubscriptionList.cpp:361-393 | one operation leaves as many nodes as there were, or as there are live entries, whichever is more |
| `SubscriptionEffects.OneMessagePerSubscriber` | sdm/dm/DM.cpp:3095-3139 | a notification reaches each live subscriber of it exactly once and nobody else |
| `SubscriptionLaws.UnsubscribeEnds` | sdm/dm/DM.cpp:2943-2981 | the DM's own cancel ends exactly the subscription it names and touches no other entry |
| `SubscriptionLaws.StepOnNotification` | sdm/dm/DM.cpp:2943-3139 | no operation but its own subscribe and cancel changes whether a component is subscribed to a notification |
| `SubscriptionLaws.LastWordIsKept` | sdm/dm/DM.cpp:2943-3139 | after any run of operations by anybody, a notification is sent to a component once if its last word on it was to subscribe, and otherwise not at all |
| `SubscriptionLaws.RequestAsks` | sdm/dm/SubscriptionList.cpp:202-268 | replies 5 and 7 make live exactly what was live and what the request asks for, and only 7, for a ReqReg, asks for the CANCELLATION entry too |
| `SubscriptionLaws.OtherRepliesDoNothing` | sdm/dm/SubscriptionList.cpp:202-268 | a reply value other than 5, 7 and 11 changes nothing |
| `SubscriptionLaws.WildcardEnds` | sdm/dm/SubscriptionList.cpp:409-662 | a cancel with an empty selector ends exactly the requests of its kind by the component, a ReqReg by address and port, and spares all other components |
| `SubscriptionLaws.ReqRegCancelEnds` | sdm/dm/SubscriptionList.cpp:475-550 | a cancel of one ReqReg ends exactly its two entries |
| `SubscriptionLaws.SearchCancelTakesFirst` | sdm/dm/SubscriptionList.cpp:566-718 | a cancel of one Search or VarReq takes the first live entry with its subscriber, message, source and item, and nothing when there is none |
| `SubscriptionLaws.EntryCarriesId` | sdm/dm/SubscriptionList.cpp:293-396 | an entry made by a request carries its identifier |
| `SubscriptionEffects.UniqueKeyCount` | sdm/dm/SubscriptionList.cpp:119-178 | with distinct keys a key is live once or not at all |
| `SubscriptionEffects.AddThenCancelRestoresIff` | sdm/dm/SubscriptionList.cpp:566-718 | Search and VarReq: cancelling right after adding restores the live entries exactly when the subscription was not live and no other entry the cancel accepts lies before the first hole |
| `SubscriptionEffects.StaleFieldsAreSelected` | sdm/dm/SubscriptionList.cpp:675-718 | a concrete run from the empty table, for a subscriber known by address and port, after which that condition fails |
| `SubscriptionEffects.ReqRegAddThenCancelRestoresIff` | sdm/dm/SubscriptionList.cpp:293-550 | ReqReg: cancelling right after adding restores the live entries exactly when the FUTURE entry was not live |
| `SubscriptionEffects.CancellationHasFuture` | sdm/dm/SubscriptionList.cpp:293-396 | a live CANCELLATION entry means the FUTURE entry with the same selector is live |
| `SubscriptionLists.SubscriptionList.Append` | sdm/dm/SubscriptionList.cpp:89-104 | a new node follows the old tail and every older node keeps its place |
| `SubscriptionLists.SubscriptionList.Add` | sdm/dm/SubscriptionList.cpp:119-178 | walk, hole search and append refine the specification of an add; refused exactly for a live duplicate |
| `SubscriptionLists.SubscriptionList.AddSubscription` | sdm/dm/SubscriptionList.cpp:119-178 | the notification add refines its step |
| `SubscriptionLists.SubscriptionList.AddReqRegSubscription` | sdm/dm/SubscriptionList.cpp:293-396 | the ReqReg add refines its step |
| `SubscriptionLists.SubscriptionList.RetireAll` | sdm/dm/SubscriptionList.cpp:628-662 | a walk retires every match in place and nothing else |
| `SubscriptionLists.SubscriptionList.RetireFirst` | sdm/dm/SubscriptionList.cpp:675-718 | a walk retires the first match in place and nothing else |
| `SubscriptionLists.SubscriptionList.RemoveAllReqReg` | sdm/dm/SubscriptionList.cpp:409-454 | two passes, one for each kind, remove what one pass over both would |
| `SubscriptionLists.SubscriptionList.RemoveReqReg` | sdm/dm/SubscriptionList.cpp:475-550 | the single ReqReg cancel refines its step |
| `SubscriptionLists.SubscriptionList.AddOrRemoveSubscription` | sdm/dm/SubscriptionList.cpp:202-268 | the dispatch on reply, message and wildcard refines the table's step, and answers false exactly for a cancel |
| `SubscriptionLists.SubscriptionList.CancelSubscription` | sdm/dm/DM.cpp:2943-2981 | the DM's own walk refines its step |
| `SubscriptionLists.SubscriptionList.PublishNotification` | sdm/dm/DM.cpp:3095-3139 | the walk sends what the specification sends, in list order |
| `ProviderSubscriptions.ProviderSubscriptionList.Add` | sdm/dm/ProviderSubscriptionList.cpp:34-59 | the entry is appended after walking to the last node |
| `ProviderSubscriptions.ProviderSubscriptionList.Unlink` | sdm/dm/ProviderSubscriptionList.cpp:112-135 | taking one node out relinks its neighbours and keeps the order of the rest, at the head or in the middle |
| `ProviderSubscriptions.ProviderSubscriptionList.DeleteMatching` | sdm/dm/ProviderSubscriptionList.cpp:145-183 | in-place deletion leaves exactly the entries that do not match, in their order |
| `ProviderSubscriptions.ProviderSubscriptionList.Delete` | sdm/dm/ProviderSubscriptionList.cpp:108-141 | the entries of this subscriber for this message are gone and all others remain in order |
| `ProviderSubscriptions.ProviderSubscriptionList.DeleteAll` | sdm/dm/ProviderSubscriptionList.cpp:145-183 | by provider identity or by subscriber address and port, exactly the matching entries are gone |
| `ProviderSubscriptions.ProviderSubscriptionList.SubscriberFinish` | sdm/dm/ProviderSubscriptionList.cpp:64-99 | one Deletesub for each removed entry, in list order; every one is for the finished subscriber's address and port; the rest of the list remains |
| `ProviderSubscriptions.ProviderSubscriptionList.ProviderFinish` | sdm/dm/ProviderSubscriptionList.cpp:101-104 | the entries of the provider are gone, without notices |
| `ProviderSubscriptions.FinishNotifies` | sdm/dm/ProviderSubscriptionList.cpp:64-99 | for every provider, subscriber and message: as many notices with the provider as source and the subscriber as destination as there are entries of the three, if the subscriber has the address and port, and otherwise none |
| `ProviderSubscriptions.StepLeaves` | sdm/dm/ProviderSubscriptionList.cpp:34-183 | how often each entry is listed after each operation |
| `ProviderSubscriptions.StepConserves` | sdm/dm/ProviderSubscriptionList.cpp:64-183 | one operation accounts for every entry: still listed, reported to its provider about its subscriber, or dropped |
| `ProviderSubscriptions.RunConserves` | sdm/dm/ProviderSubscriptionList.cpp:64-183 | over every run each entry added is still listed, was reported by its own Deletesub, from its provider to its subscriber, or was dropped without one |
| `ProviderSubscriptions.FinishedIsGone` | sdm/dm/DM.cpp:2522-2523 | after a component finished as subscriber and as provider no entry names it as either |
| `Sequences.FilterPlace` | sdm/dm/ProviderSubscriptionList.cpp:108-183 | a filtered list holds exactly the elements that pass, each at the place given by how many passed before it |
| `Registry.StepKeepsSound` | sdm/dm/DM.cpp:3849-4000 | through registration, reactivation, slot reuse, cancels and task errors, each sensor id holds its slot's index and no available slot is active |
| `Registry.RunKeepsSound` | sdm/dm/DM.cpp:3849-4000 | the same over every run |
| `Registry.MatchIsUnique` | sdm/dm/DM.cpp:4163-4181 | sensor ids are pairwise distinct, so a lookup finds slot i exactly when slot i is active under that id |
| `Registry.IndexIsRecoveredIff` | sdm/dm/DM.cpp:2309 | the eight bits the handler keeps recover the index exactly below 256 slots |
| `Registry.OthersUntouched` | sdm/dm/DM.cpp:3940-4002 | registering changes at most one existing slot, which was inactive and either available or of the same name |
| `Registry.GrowsIff` | sdm/dm/DM.cpp:3950-3967 | the list grows exactly when the component is unknown and every slot after the first is taken |
| `Registry.FirstSlotIsNotReused` | sdm/dm/DM.cpp:3950-3962 | once available, the first slot keeps its contents through every run |
| `Registry.RestartKeepsSidIff` | sdm/dm/DM.cpp:3849-3886 | a task reported in error cannot be looked up; registered again it returns to its slot, and under its old sensor id exactly when it announces the same low sixteen bits |
| `Registry.RegisteredAnswers` | sdm/dm/DM.cpp:3839-4002 | a component that has registered is up at its address, port and pid and is found by its sensor id; a task error with its address and pid and, unless it is a PM, a cancel with its own port and id change its slot exactly when they mean no earlier slot |
| `Registry.CancelChangesIff` | sdm/dm/DM.cpp:2431-2525 | a cancel changes the first slot it means and no other: for a PM the task with the pid, for a port and id of zero a device, otherwise the component with port and low byte, always up and at the requester's address |
| `Registry.TaskErrorChangesIff` | sdm/dm/DM.cpp:2596-2625 | a task error takes down the first component up at its address under its pid, and changes nothing else |
| `Registry.ElsewhereSpares` | sdm/dm/DM.cpp:2431-2636 | over every run of cancels and task errors from other addresses a component stays as it is |
| `Registry.SameIsLeftAlone` | sdm/dm/DM.cpp:3893-3920 | a component that is up and registers again changes nothing, unless an earlier slot of its name is down |
| `Registry.DownIsTakenUp` | sdm/dm/DM.cpp:3849-3886 | the first slot of the name that is down is taken up with the new address, port, pid and sixteen bits of the id |
| `Registry.NewcomerIsStored` | sdm/dm/DM.cpp:3940-4002 | a newcomer takes the first free slot after the first, or a new one, with eight bits of its id |
| `Registry.InvalidGivesBack` | sdm/dm/DM.cpp:2190-2260 | one whose document does not parse leaves the slot free |
| `Registry.RegisterTwiceIff` | sdm/dm/DM.cpp:3893-3996 | a component that repeats its first registration is recognised exactly when its id fits the eight bits that are stored, or it is the Task Manager; otherwise it is stored twice |
| `Registry.CancelFreesIff` | sdm/dm/DM.cpp:2491-2546 | a cancel frees its slot exactly for a full cancel or a resident manager, and never the DM's own; a freed slot loses its port and pid and keeps its name, address and sensor id |
| `Registry.CancelledReturnsIff` | sdm/dm/DM.cpp:2491-2546 | a cancelled component that registers again returns to its own slot exactly when the cancel was not a full one and the component is not resident |
| `Registry.XtedsList.AlreadyRegistered` | sdm/dm/DM.cpp:3839-3920 | the scan reactivates, recognises or misses as the specification does, with -1 for a component that is already up |
| `Registry.XtedsList.StoreInfo` | sdm/dm/DM.cpp:3940-4002 | the slot used is the specified one and its index is in the sensor id |
| `Registry.XtedsList.RegisterXteds` | sdm/dm/DM.cpp:2190-2260 | the handler refines the registration step, giving the slot back when the document does not parse |
| `Registry.XtedsList.CancelXteds` | sdm/dm/DM.cpp:2431-2546 | the handler refines the cancel step; unknown exactly when no slot answers |
| `Registry.XtedsList.ReportTaskError` | sdm/dm/DM.cpp:2570-2636 | the handler refines the task-error step |
| `Registry.XtedsList.MatchSid` | sdm/dm/DM.cpp:4163-4181 | the first active slot with the id |
| `PmProcesses.PMProcess.IsUnresponsive` | sdm/pm/PMProcess.cpp:59-82 | the poll refines its specification: answer, stored time and misses |
| `PmProcesses.PMProcess.HeartbeatReceived` | sdm/pm/PMProcess.cpp:53-57 | time and misses start over |
| `PmProcesses.PMProcess.Failure` | sdm/pm/PMProcess.cpp:91-97 | the failure is counted and the heartbeat state cleared |
| `PmProcesses.PMProcess.Reset` | sdm/pm/PMProcess.cpp:99-103 | the failed state ends and the heartbeat state is kept |
| `PmProcesses.PollsKeepSchedule` | sdm/pm/PMProcess.cpp:59-82 | over any polls the stored time is the last heartbeat plus ten seconds for each miss |
| `PmProcesses.AlarmIsNotEarly` | sdm/pm/PMProcess.cpp:59-82 | no poll finds a process unresponsive before sixty seconds after its last heartbeat |
| `PmProcesses.AlarmIsNotMissed` | sdm/pm/PMProcess.cpp:59-82 | six polls after that point, among any others, are enough |
| `PmProcesses.DetectionWindow` | sdm/pm/PMProcess.cpp:53-82 | both bounds for a process that has just been heard from at a time after zero |
| `PmProcesses.SilentStartIsTolerated` | sdm/pm/PMProcess.cpp:59-63 | a process that neither failed nor was heard from is never found unresponsive, and polls leave it unchanged |
| `PmProcesses.RestartIsToleratedIff` | sdm/pm/PMProcess.cpp:59-103 | a restarted process gets the grace of a new one exactly when it was not polled in its failed state at ten seconds or later |
| `PmSupervision.StepKeepsList` | sdm/pm/pm_main.cpp:576-610 | every step keeps pids unique and each entry's failures equal to its restarts plus the one being dealt with, at most five |
| `PmSupervision.StepKeepsEntry` | sdm/pm/pm_main.cpp:453-501 | every step keeps each entry within one report and five relaunches, and accounts for every entry made |
| `PmSupervision.RunKeepsSound` | sdm/pm/pm_main.cpp:453-610 | the same over every run |
| `PmSupervision.SupervisionBudget` | sdm/pm/pm_main.cpp:453-610 | since boot: pids are unique, no entry was restarted more than five times or reported finished by an exit or a kill twice or while listed, and every entry made is listed, reported or dropped |
| `PmSupervision.FetchFailureReportsTwice` | sdm/pm/pm_main.cpp:1208-1224 | reports of failed fetches come on top: a listed task whose code cannot be fetched is reported and stays listed, and is reported again when it is killed |
| `PmSupervision.LaunchThenExit` | sdm/pm/pm_main.cpp:453-501 | round trip: a new task that is launched, numbered and exits leaves the list as it was, one report of its pid, and one cancel of its xTEDS |
| `PmSupervision.FailureThenRelaunch` | sdm/pm/pm_main.cpp:453-610 | a task found unresponsive within its budget comes back in its own entry under its new process number, with one failure and one restart more and its heartbeats starting over, after a kill, one error and one relaunch message |
| `PmSupervision.HeartbeatIsHeard` | sdm/pm/PMProcessList.cpp:86-96 | a heartbeat reaches the entry with its pid, which starts over, and no other |
| `PmSupervision.LaunchAdds` | sdm/pm/PMProcessList.cpp:15-37 | a launch under a new pid appends an entry with the name and pid and nothing known of its process |
| `PmSupervision.NumberIsGiven` | sdm/pm/PMProcessList.cpp:71-84 | the process number goes to the entry that was launched and to no other |
| `PmSupervision.TurnOfMonitor` | sdm/pm/pm_main.cpp:576-608 | one turn: a task that is up, was once heard from and is late for the sixth time is killed, and reported and marked up to its fifth failure, dropped after it; any other has its poll counted |
| `PmSupervision.PassWatchesEach` | sdm/pm/pm_main.cpp:571-615 | a pass that drops nobody gives every entry its turn |
| `PmSupervision.KillSends` | sdm/pm/pm_main.cpp:1239-1284 | a kill signals the process number of the task with the pid; at level 1 the task is reported, fully cancelled and removed |
| `PmSupervision.ExitSends` | sdm/pm/pm_main.cpp:453-501 | an exit asks again for a task that had failed; any other is reported, cancelled and removed |
| `PmSupervision.ResetSends` | sdm/pm/pm_main.cpp:1047-1077 | a reset signals each process and reports each task in error, once for each entry |
| `PmSupervision.SweepKeepsList` | sdm/pm/pm_main.cpp:571-615 | a whole pass of the monitor, removals and skipped entries included, keeps the list sound |
| `PmSupervision.SweepKeepsEntry` | sdm/pm/pm_main.cpp:571-615 | a whole pass keeps every entry within its bounds and reports nobody finished |
| `PmSupervision.OthersOnlyRemove` | sdm/pm/pm_main.cpp:738-879 | while the signal thread waits for its fork, the other threads only take entries off the list, in every run |
| `PmSupervision.FailedLaunchRemovesItsOwnIff` | sdm/pm/pm_main.cpp:738-879 | a launch that fails removes its own entry exactly when that entry and every one before it are still listed |
| `PmSupervision.NewLaunchFails` | sdm/pm/pm_main.cpp:738-879 | for a new task: exactly when no entry has left since; when one has left the index is one past the end, when more have nothing is removed |
| `PmSupervision.LaunchIndexGoesStale` | sdm/pm/pm_main.cpp:738-879 | a concrete run in which the index is one past the end: another task is killed for good while this one is being launched |
| `PmSupervision.FailedLaunchTakesAnother` | sdm/pm/pm_main.cpp:738-879 | for a task launched again in the middle of the list, a kill of the first entry makes the failed launch remove the entry after its own |
| `PmSupervision.LaunchKeepsList` | sdm/pm/PMProcessList.cpp:15-37 | a launch under a known pid makes no second entry |
| `PmProcessLists.PMProcessList.Add` | sdm/pm/PMProcessList.cpp:15-37 | a known pid only loses its process number, a new one is appended, and the index is that of the pid |
| `PmProcessLists.PMProcessList.Remove` | sdm/pm/PMProcessList.cpp:39-49 | the element is erased and the others keep their order; an index past the size is refused, and the size itself is the one value that reaches an undefined erase |
| `PmProcessLists.PMProcessList.GetIndexOfSdmPid` | sdm/pm/PMProcessList.cpp:61-69 | the first index with the pid, or -1 |
| `PmProcessLists.PMProcessList.GetIndexOfOsPid` | sdm/pm/PMProcessList.cpp:51-59 | the first index with the process number, or -1 |
| `PmProcessLists.PMProcessList.UpdateOsPid` | sdm/pm/PMProcessList.cpp:71-84 | the process with the pid gets the number, no other changes |
| `PmProcessLists.PMProcessList.HeartbeatReceived` | sdm/pm/PMProcessList.cpp:86-96 | the process with the pid is heard from, no other changes |
| `PmProcessLists.Watch` | sdm/pm/pm_main.cpp:576-608 | one turn of the monitor refines the machine's turn, list and messages |
| `PmProcessLists.TaskHeartbeatMonitor` | sdm/pm/pm_main.cpp:571-615 | a whole pass refines the machine's step although the list shrinks under the loop |
| `PmProcessLists.LaunchTask` | sdm/pm/pm_main.cpp:738-744 | a launch up to its fork refines its step, and keeps the index that the step remembers |
| `PmProcessLists.LaunchSucceeds` | sdm/pm/pm_main.cpp:896-904 | the number of the forked process goes to the entry with the pid |
| `PmProcessLists.LaunchFails` | sdm/pm/pm_main.cpp:868-879 | a failed fork refines its step, and has no defined effect exactly where the step is not enabled |
| `PmProcessLists.SigChldHandler` | sdm/pm/pm_main.cpp:453-501 | an exit refines its step: relaunch of a failed task, or report, cancel and removal together |
| `PmProcessLists.KillHandler` | sdm/pm/pm_main.cpp:1239-1284 | a kill refines its step: the signal, and at level 1 report, full cancel and removal together |
| `PmProcessLists.DoReset` | sdm/pm/pm_main.cpp:1047-1077 | a reset sends one task error for each process, in order, and empties the list |

## Left out

What is weaker than the C++, or assumed of its surroundings:

- TmProtocol.NoTaskBoundToRemovedPm: assumes that the Scheduler wakes from the sleep of a scheduling interval to a PM still accounted for, which the code does not check; `SleeperArises` shows a run without it, and `CommitIsSafeIff` is exact at the commit. A recovered task carries no PM at all, so the statement is about tasks that have a binding.
- TmProtocol.Enabled: an index into an inactive slot throws and nobody catches it, so the process ends; the model has no step for that end, and the other threads may still take steps that the list does not see. `ThrowIsFinal` says so. Replies to heartbeats may come between two removals of one round, which the code's thread does not read there.
- TmLoad.CountersMatchTasks: assumes a fresh start, finish reports only for pids assigned to the reporting PM, the two known modes, the same wake, that a PM does not register again while its own failure is half handled, and that a reset finds nothing scheduled or counted when it clears the counters. The code enforces none of these. What each costs is exact: for recovered tasks `RecoveryKeepsLoadIff`, for reports `ReportKeepsLoadIff`, for modes `FinishKeepsLoadIffModeIsKnown`, for wakes and registrations `RegisterKeepsLoadIff` and `HandlingRepairsIff`, for resets `ResetKeepsLoadIff`. The runs in `TmTraces` reach each: `RecoveredTaskArises`, `DuplicateReportArises`, `UnknownModeArises`, `SleeperArises`, `ReturningPmArises` and `ReturningPmStaysWrong`, `ResetRaceArises` and `FinishRaceArises`.
- TaskManagers.TaskManager.RegPMHandler: does not copy the counts kept for PMs that reported tasks before they registered.
- TaskManagers.TaskManager.PMRunningTaskHandler: does not keep those counts for a PM that is not registered.
- TaskManagers.TaskManager.RemoveFailedPms: runs the loop without interference; that it also ends beside replies and registrations is `SweepTerminates`.
- TmDetection.DetectionIsTwoSided: assumes a slot vacated by a removal is not taken again before the next round; `FreshPmIsDueIffSlotWasVacated` says what happens otherwise.
- TmConservation.RunKeepsPids: pids and counters are unbounded; the wrap of the 32-bit pid counter is not modelled.
- LoadBalance.ChosenIsNearMinimum: is about a search that no other thread interrupts; between two lookups of a real search PMs may come, go and change their counts.
- LoadBalance.RunKeepsSpread: is about runs of scheduling decisions alone; finishes can widen the spread.
- CodeTransfer.TransferIsSafe: is a safety property only, and the file does not change during the transfer; after a poll miss the C++ falls through to a blocking read, so no liveness is claimed.
- CodeTransfer.StaleEntryStarves: shows what the stale entry does to the list; that its pipe has no reader any more, and what a write to it then does to the process, is not modelled.
- CodeTransfer.NumSegments: takes the comparison of the two quotients as exact, where the C++ makes it in double precision.
- SegmentTransfers.RunKeepsPool: assumes each sender keeps one document and one segment total for a whole transfer, with payloads that fit a message and hold no zero character; it covers the four slots that lookups scan, not five concurrent transfers.
- SegmentTransfers.BufferIsNeverOverrun: a buffer that is exactly full has no room for a terminator, which the model of strings does not show.
- Subscriptions.KeyOf: an entry whose string was never set compares unequal to every request, where the C++ compares a null pointer; the strings of a request are never null, and a null one passed for an unused field is the empty string.
- Subscriptions.Op: message identifiers are the signed 16-bit pairs that callers pass, which survive being stored; the DM keeps one table, without its copies on backup DMs.
- SubscriptionEffects.OneMessagePerSubscriber: says who is sent a message, not its payload.
- SubscriptionEffects.AddThenCancelRestoresIff: a single VarReq cancel ignores the interface; the condition covers this and nothing more precise is claimed.
- Registry.SensorId: the shifted index is not cut to the width of the sensor id, so lists of 32768 slots and more are not modelled.
- Registry.XtedsList.CancelXteds: the search and the change are one step, where the C++ takes the list lock between them; the publications and the provider list's part in the cancel are modelled in their own modules and not joined to it.
- Registry.XtedsList.ReportTaskError: the same, and the handler also removes the ReqReg subscriptions of the task.
- PmProcessLists.DoReset: does not clear the PM's own subscriptions.
- PmSupervision.Enabled: a failed launch removes whatever stands at the index it was given earlier, as the C++ does; an index that now is one past the end passes the C++ guard and has no defined effect, so runs stop short of it. `NewLaunchFails` and `LaunchIndexGoesStale` show when.
- PmSupervision.SupervisionBudget: bounds the reports of exits and kills; a failed fetch reports a task without touching the list, and how often one is asked for is up to the messages that arrive. `FetchFailureReportsTwice` shows the two together.
- PmProcesses.DetectionWindow: a heartbeat at time zero cannot be told from none, so the time is positive.
- SubscriptionLists.SubscriptionList.Find: stands for the walks that the C++ repeats in each function; the nested tests of those walks appear as one predicate.
- Ids.Resources: the resource word is modelled as its four fields; records held by value in C++ arrays and list nodes are values in Dafny arrays and nodes.

Not modelled:

- Sockets, pipes, signals, fork and exec, logging, the power-cycling of nodes, and the election and synchronisation of backup managers.
- The Network Manager, the PM identifier service and the IDS server.
- Parsing and merging of xTEDS, regular-expression searches, and the index alignment inside `ReqReg`.
- The queues `SDMRegQueue` and `SDMCancelQueue`, whose wrap after index 98 is not a queue's.
- The Sensor Manager, the SPA-1 Manager, the sensors, the byte swapping of messages, and the vendored regular-expression library.
- Liveness of any thread, scheduling of the operating system, and memory exhaustion.
