/**
 * The handlers and threads of sdm/tm/tm.cpp over the two tables: one method for each region that they run under a
 * mutex, each proved to be a step of the machine.
 *
 * What the machine's steps achieve, in every interleaving, is proved in the modules on the machine.
 * The object keeps between its calls what the threads of the C++ keep in local variables between their regions.
 */
module TaskManagers {
  import opened Ids
  import opened Sequences
  import opened Tasks
  import opened TmProtocol
  import opened Books = PmRecords
  import FailureDetection

  class TaskManager {
    const taskList: TaskList
    const pmList: PMRecordList
    var nextPid: nat
    // What the threads hold between their critical sections.
    var phase: Phase
    var taskData: Task  // the Scheduler's copy of its task
    var sweeping: bool
    var failing: Option<ComponentId>
    var finishing: Option<Report>
    var recovering: Option<Recovery>
    var resets: nat
    var resetFlag: bool

    ghost function State(): TmState
      reads this, taskList.tasks, pmList, pmList.records, pmList.beats
      requires pmList.Valid()
    {
      Tm(taskList.View(), pmList.View(), nextPid, phase, sweeping, failing, finishing, recovering, resets, resetFlag)
    }

    /** While the Scheduler has not slept, its copy is the task in the table. */
    ghost predicate Valid()
      reads this, taskList.tasks, pmList, pmList.records, pmList.beats
    {
      && taskList.Valid() && pmList.Valid() && Shape(State())
      && (phase.Seeking? || phase.Picked? ==> taskData == Copied(taskList.tasks[phase.n]))
    }

    constructor ()
      ensures Valid() && State() == START
      ensures fresh(taskList.tasks) && fresh(pmList) && fresh(pmList.records) && fresh(pmList.beats)
    {
      taskList := new TaskList();
      pmList := new PMRecordList();
      nextPid, phase, taskData, sweeping, failing, finishing := 1, Idle, BLANK, false, None, None;
      recovering, resets, resetFlag := None, 0, false;
    }

    // ----- the Listener -----

    method PostTask(t: Task)
      requires Valid() && Enabled(State(), Post(t))
      modifies taskList.tasks
      ensures Valid() && State() == Next(old(State()), Post(t))
    {
      var _ := taskList.AddTo(Posted(t));
    }

    method RegPMHandler(id: ComponentId, resources: Resources)
      requires Valid() && Enabled(State(), Register(id, resources))
      modifies pmList.records
      ensures Valid() && State() == Next(old(State()), Register(id, resources))
    {
      var known := pmList.AlreadyRegistered(id);
      if known { return; }
      var _ := pmList.RegisterPM(id, resources);
    }

    /** The first half of TaskFinishedHandler: the reporting PM is discounted under the PM table's mutex. */
    method CountFinished(id: ComponentId, pid: nat)
      requires Valid() && Enabled(State(), CountFinish(id.address, pid))
      modifies this, pmList.records
      ensures Valid() && State() == Next(old(State()), CountFinish(id.address, pid))
    {
      var _ := pmList.TaskFinished(id);
      finishing := Some(Report.Report(id.address, pid));
    }

    /** The second half: the task leaves the list, or waits to be rescheduled, under the list mutex. */
    method ListFinished()
      requires Valid() && Enabled(State(), ListFinish)
      modifies this, taskList.tasks
      ensures Valid() && State() == Next(old(State()), ListFinish)
    {
      var _ := taskList.TaskFinished(finishing.value.pid);
      finishing := None;
    }

    /** The three regions of PMRunningTaskHandler: the next pid moves past the reported one, */
    method RecoverPid(id: ComponentId, t: Task)
      requires Valid() && Enabled(State(), Recover(id.address, t))
      modifies this
      ensures Valid() && State() == Next(old(State()), Recover(id.address, t))
    {
      if t.pid >= nextPid { nextPid := t.pid + 1; }
      recovering := Some(Recovery(id.address, t, false));
    }

    /** the task enters the list, */
    method RecoverTask()
      requires Valid() && Enabled(State(), RecoverList)
      modifies this, taskList.tasks
      ensures Valid() && State() == Next(old(State()), RecoverList)
    {
      var _ := taskList.AddTo(Recovered(recovering.value.t));
      recovering := Some(recovering.value.(listed := true));
    }

    /** and its PM is counted, if it is registered. */
    method RecoverStart()
      requires Valid() && Enabled(State(), RecoverCount)
      modifies this, pmList.records
      ensures Valid() && State() == Next(old(State()), RecoverCount)
    {
      var _ := pmList.TaskHasStarted(ComponentId(recovering.value.address, PORT_PM, 0));
      recovering := None;
    }

    method PMRunningTaskHandler(id: ComponentId, t: Task)
      requires Valid() && Enabled(State(), Recover(id.address, t)) && !phase.Busy()
      modifies this, taskList.tasks, pmList.records
      ensures Valid()
      ensures State() == Next(Next(Next(old(State()), Recover(id.address, t)), RecoverList), RecoverCount)
    {
      RecoverPid(id, t);
      RecoverTask();
      RecoverStart();
    }

    // ----- the Scheduler -----

    /** Takes the list mutex and finds a pending task; gives up unless some PM is registered. */
    method SchedulerLook()
      requires Valid() && Enabled(State(), Look)
      modifies this
      ensures Valid() && State() == Next(old(State()), Look)
    {
      var n := taskList.FindPendingTask();
      if n == NUMTASKS { return; }
      var empty := pmList.IsEmpty();
      if empty { return; }
      taskData := Copied(taskList.tasks[n]);
      phase := Seeking(n, 0);
    }

    /** One call of FindPMID or FindEligiblePM. */
    method SchedulerSearch()
      requires Valid() && Enabled(State(), Search)
      modifies this, pmList
      ensures Valid() && State() == Next(old(State()), Search)
    {
      if taskData.resources.pmId != 0 {
        var i := pmList.FindPMID(taskData.resources);
        phase := if i < MAX_PM then Picked(phase.n, pmList.records[i].id) else Idle;
      } else {
        var found := pmList.FindEligiblePM(phase.load, taskData.resources);
        if found.Some? {
          phase := Picked(phase.n, pmList.records[found.value].id);
        } else {
          phase := if phase.load + 1 < MAX_JOBS then Seeking(phase.n, phase.load + 1) else Idle;
        }
      }
    }

    /** The whole pick, when no other thread comes between its lookups. */
    method SchedulerPick()
      requires Valid() && Enabled(State(), Look)
      modifies this, pmList
      ensures Valid() && State() == Sought(Next(old(State()), Look))
    {
      SchedulerLook();
      ghost var s := State();
      while phase.Seeking?
        invariant Valid() && State() == s && Sought(s) == Sought(Next(old(State()), Look))
        decreases LookupsLeft(phase)
      {
        SchedulerSearch();
        assert State() == AfterSearch(s);
        s := AfterSearch(s);
      }
    }

    /** A task with a scheduling interval: the list mutex is let go of for the sleep. */
    method SchedulerSleep()
      requires Valid() && Enabled(State(), Sleep)
      modifies this
      ensures Valid() && State() == Next(old(State()), Sleep)
    {
      phase := Asleep(phase.n, phase.pm);
    }

    /** After the sleep the Scheduler starts over if there was a reset, and clears the mark. */
    method SchedulerCheckReset()
      requires Valid() && Enabled(State(), CheckReset)
      modifies this
      ensures Valid() && State() == Next(old(State()), CheckReset)
    {
      if resetFlag {
        resetFlag := false;
        phase := Idle;
      } else {
        phase := Awake(phase.n, phase.pm);
      }
    }

    /** The list mutex is taken again; neither the task nor the PM is looked at. */
    method SchedulerResume()
      requires Valid() && Enabled(State(), Resume)
      modifies this
      ensures Valid() && State() == Next(old(State()), Resume)
    {
      phase := Ready(phase.n, phase.pm);
    }

    /**
     * A pid is assigned under the pid mutex, and the copy of the task is sent; the list mutex is still held. Nothing
     * is sent when the slot has become inactive: indexing it throws, and the process ends.
     */
    method SchedulerSend() returns (sent: Option<TaskMessage>)
      requires Valid() && AtSend(State())
      modifies this, taskList.tasks
      ensures Valid()
      ensures sent.None? <==> Throws(old(State()))
      ensures sent.None? ==> State() == old(State()) && taskData == old(taskData)
      ensures sent.Some? ==> State() == Next(old(State()), Send) && Enabled(old(State()), Send)
      ensures sent.Some? ==>
                sent.value ==
                TaskMessage(phase.pm, taskData.priority, taskData.filename, old(nextPid), taskData.version)
      ensures sent.Some? ==> taskData == old(taskData).(pid := old(nextPid))
      ensures sent.Some? && old(phase).Picked? ==> taskData == Copied(taskList.tasks[phase.n])
    {
      if taskList.tasks[phase.n].state.Inactive? { return None; }
      taskList.tasks[phase.n] := taskList.tasks[phase.n].(pid := nextPid);
      taskData := taskData.(pid := nextPid);
      sent := Some(TaskMessage(phase.pm, taskData.priority, taskData.filename, taskData.pid, taskData.version));
      nextPid := nextPid + 1;
      phase := Sent(phase.n, phase.pm);
    }

    method SchedulerCount()
      requires Valid() && Enabled(State(), CountStart)
      modifies this, pmList.records
      ensures Valid() && State() == Next(old(State()), CountStart)
    {
      var _ := pmList.TaskHasStarted(phase.pm);
      phase := Counted(phase.n, phase.pm);
    }

    /** The task becomes scheduled on the PM remembered since the search, and the list mutex is released. */
    method SchedulerCommit()
      requires Valid() && Enabled(State(), Commit)
      modifies this, taskList.tasks
      ensures Valid() && State() == Next(old(State()), Commit)
    {
      taskList.tasks[phase.n] := taskList.tasks[phase.n].(state := Scheduled, timeout := 0, pm := phase.pm);
      phase := Idle;
    }

    method DropPreferredPm(resources: Resources)
      requires Valid() && Enabled(State(), DropPreference(resources))
      modifies taskList.tasks
      ensures Valid() && State() == Next(old(State()), DropPreference(resources))
    {
      taskList.RemovePreferredPmId(resources);
    }

    // ----- heartbeats -----

    method HeartbeatRound() returns (sent: seq<ComponentId>)
      requires Valid() && Enabled(State(), Heartbeat)
      modifies this, pmList.beats
      ensures Valid() && State() == Next(old(State()), Heartbeat)
      ensures sent == IdsOf(Filter(State().book.pms, IsUsed()))
    {
      sent := pmList.SendHeartbeatToAll();
      sweeping := true;
    }

    method HeartbeatReply(id: ComponentId)
      requires Valid() && Enabled(State(), Reply(id.address))
      modifies pmList.beats
      ensures Valid() && State() == Next(old(State()), Reply(id.address))
    {
      pmList.HeartbeatReceived(id);
    }

    method RemoveFailedPm() returns (removed: bool)
      requires Valid() && Enabled(State(), RemoveFailed)
      modifies this, pmList.records
      ensures Valid() && State() == Next(old(State()), RemoveFailed)
      ensures removed <==> State().failing.Some?
      ensures !removed ==> FirstFailed(old(State()).book) == MAX_PM
    {
      var gone := pmList.RemoveAnyFailed();
      removed := gone.Some?;
      if removed { failing := gone; } else { sweeping := false; }
    }

    /** One task error is sent for each task of the failed PM, and each goes back to pending. */
    method HandleFailedPm() returns (sent: seq<TaskError>)
      requires Valid() && Enabled(State(), HandleFailure)
      modifies this, taskList.tasks
      ensures Valid() && State() == Next(old(State()), HandleFailure)
      ensures sent == FailureErrors(old(State()).tasks, old(failing).value)
    {
      sent := taskList.PMFailure(failing.value);
      failing := None;
    }

    /** One turn of the removal loop: one PM fewer is left to remove, or the loop is over. */
    method RemoveOneFailedPm() returns (removed: bool)
      requires Valid() && Sound(State()) && sweeping && !phase.Busy() && failing.None?
      modifies this, taskList.tasks, pmList.records
      ensures Valid() && Sound(State()) && failing.None? && phase == old(phase) && sweeping == removed
      ensures removed <==> FirstFailed(old(State()).book) < MAX_PM
      ensures var s := Next(old(State()), RemoveFailed);
              State() == if removed then Next(s, HandleFailure) else s
      ensures FailureDetection.FailedCount(State().book, 0)
              == FailureDetection.FailedCount(old(State()).book, 0) - if removed then 1 else 0
    {
      ghost var b := State().book;
      TurnKeepsSound(State());
      removed := RemoveFailedPm();
      if removed {
        FailureDetection.FailedCountWithout(b, 0);
        var _ := HandleFailedPm();
      }
    }

    /**
     * The removal loop at the end of a heartbeat round, run without interference. It ends, every failed PM is
     * gone, and every scheduled task with a binding is bound to a PM that is still registered.
     */
    method RemoveFailedPms()
      requires Valid() && Sound(State()) && sweeping && !phase.Busy() && failing.None?
      modifies this, taskList.tasks, pmList.records
      ensures Valid() && !sweeping && failing.None? && FirstFailed(State().book) == MAX_PM
      ensures Sound(State()) && BoundToRegistered(State())
    {
      var removed := true;
      while removed
        invariant Valid() && Sound(State()) && failing.None? && !phase.Busy() && sweeping == removed
        invariant !removed ==> FirstFailed(State().book) == MAX_PM
        decreases FailureDetection.FailedCount(State().book, 0), removed
      {
        removed := RemoveOneFailedPm();
      }
      BoundAtRest(State());
    }

    // ----- resets -----

    /** The first region of a reset: the list is cleared, and a sleeping Scheduler told to start over. */
    method ClearTasks()
      requires Valid() && Enabled(State(), ResetList)
      modifies this, taskList.tasks
      ensures Valid() && State() == Next(old(State()), ResetList)
    {
      resetFlag := true;
      taskList.ClearList();
      resets := resets + 1;
    }

    /** The second region, under the other mutex: the counters are cleared. */
    method ClearCounters()
      requires Valid() && Enabled(State(), ResetCounters)
      modifies this, pmList.records
      ensures Valid() && State() == Next(old(State()), ResetCounters)
    {
      pmList.ClearAllRunningTasks();
      resets := resets - 1;
    }

    /** A reset that no other thread comes between. */
    method ResetAll()
      requires Valid() && Enabled(State(), ResetList)
      modifies this, taskList.tasks, pmList.records
      ensures Valid() && State() == Next(Next(old(State()), ResetList), ResetCounters)
    {
      ClearTasks();
      ClearCounters();
    }
  }

  /** A turn of the removal loop keeps the binding invariant. */
  lemma TurnKeepsSound(s: Tm)
    requires Sound(s) && s.sweeping && s.failing.None? && !s.phase.Busy()
    ensures Sound(Next(s, RemoveFailed)) && Sound(Next(Next(s, RemoveFailed), HandleFailure))
  {
    StepKeepsSound(s, RemoveFailed);
    if Next(s, RemoveFailed).failing.Some? { StepKeepsSound(Next(s, RemoveFailed), HandleFailure); }
  }
}
