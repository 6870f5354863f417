/** Runs of the Task Manager in which a property fails that holds under the assumptions made elsewhere. */
module TmTraces {
  import opened Ids
  import opened Sequences
  import opened Tasks
  import opened LoadBalance
  import opened TmProtocol
  import opened TmLoad
  import opened TmStages
  import opened Books = PmRecords

  /**
   * A command clears the list, a task is posted, scheduled and counted, and only then does the command clear the
   * counters: at rest the counter is zero with a task scheduled, and the finish of that task takes it below zero.
   */
  lemma ResetRaceArises(id: ComponentId) returns (es: seq<Step>, pid: nat)
    ensures EnabledRun(START, es) && FaithfulRun(START, es)
    ensures var s := Run(START, es);
            && s.book.pms[0].inUse && AtRest(s) && !CounterMatches(s, 0)
            && Enabled(s, CountFinish(id.address, pid)) && Faithful(s, CountFinish(id.address, pid))
            && !NonNegative(Next(Next(s, CountFinish(id.address, pid)), ListFinish).book)
  {
    var s0, s2;
    es, s0 := Registering(id);
    var s1 := Next(s0, ResetList);
    assert Lone(s1, BLANK, Host(id));
    Then(es, s0, ResetList);
    es, s2 := Scheduling(es + [ResetList], s1, id, MODE_NORMAL);
    pid := s1.nextPid;
    var s := ClearingForgets(s2, pid, id);
    Then(es, s2, ResetCounters);
    es := es + [ResetCounters];
    FinishUnderflows(s, Underway(MODE_NORMAL, pid, id), id, pid);
  }

  /**
   * A command clears the list, a task is posted and sent, and its PM reports it finished before its start is counted.
   * Then the command clears the counters: the finish is forgotten, the start is not, and the counter stays one too
   * high.
   */
  lemma FinishRaceArises(id: ComponentId) returns (es: seq<Step>)
    ensures EnabledRun(START, es) && FaithfulRun(START, es)
    ensures var s := Run(START, es);
            s.book.pms[0].inUse && AtRest(s) && s.phase.Idle? && !CounterMatches(s, 0)
  {
    var s0, s1, s2, s3, s4, s5;
    es, s0 := Registering(id);
    Then(es, s0, ResetList);
    es, s1 := Picking(es + [ResetList], Next(s0, ResetList), Host(id), MODE_NORMAL, 0);
    es, s2 := Sending(es, s1, Job(MODE_NORMAL, 0), Host(id));
    var t := Job(MODE_NORMAL, 0).(pid := s1.nextPid);
    es, s3 := ReportForgotten(es, s2, t, id);
    es, s4 := Starting(es, s3, t, Host(id));
    es, s5 := Leaving(es, s4, Underway(MODE_NORMAL, t.pid, id), Host(id).(tasks := 1));
    LoneCount(s5, BLANK, Host(id).(tasks := 1), id.address);
  }

  /** The same report arrives twice: the PM is discounted for a task that is no longer on the list. */
  lemma DuplicateReportArises(id: ComponentId) returns (es: seq<Step>)
    ensures EnabledRun(START, es)
    ensures var s := Run(START, es);
            s.book.pms[0].inUse && AtRest(s) && s.book.pms[0].tasks == -1 && !CounterMatches(s, 0)
  {
    var s0, s1, s3;
    es, s0 := Registering(id);
    es, s1 := Scheduling(es, s0, id, MODE_NORMAL);
    var report := CountFinish(id.address, s0.nextPid);
    CountLone(s1, Underway(MODE_NORMAL, s0.nextPid, id), Host(id).(tasks := 1), -1);
    var s2 := Next(s1, report);
    Then(es, s1, report);
    es, s3 := Leaving(es + [report], s2, Underway(MODE_NORMAL, s0.nextPid, id), Host(id));
    var s4 := Next(s3, report);
    CountLone(s3, BLANK, Host(id), -1);
    Then(es, s3, report);
    assert First(s4.tasks, HasPid(s0.nextPid)) == NUMTASKS;
    Then(es + [report], s4, ListFinish);
    es := es + [report] + [ListFinish];
    LoneCount(Next(s4, ListFinish), BLANK, Host(id).(tasks := -1), id.address);
  }

  /** A PM reports a running task after it has registered: the task is counted on it and bound to no PM. */
  lemma RecoveredTaskArises(id: ComponentId, t: Task) returns (es: seq<Step>)
    requires id.address != NO_COMPONENT.address
    ensures EnabledRun(START, es)
    ensures var s := Run(START, es);
            s.book.pms[0].inUse && AtRest(s) && s.recovering.None? && !CounterMatches(s, 0)
  {
    var s0, s;
    es, s0 := Registering(id);
    es, s := Recovering(es, s0, t, id);
    LoneCount(s, Copied(Recovered(t)), Host(id).(tasks := 1), id.address);
  }

  /** A task whose mode is neither normal nor always-running finishes: its PM is discounted and it stays scheduled. */
  lemma UnknownModeArises(id: ComponentId, mode: int) returns (es: seq<Step>)
    requires mode !in {MODE_NORMAL, MODE_ALWAYS_RUNNING}
    ensures EnabledRun(START, es)
    ensures var s := Run(START, es);
            s.book.pms[0].inUse && AtRest(s) && !CounterMatches(s, 0)
  {
    var s0, s1;
    es, s0 := Registering(id);
    es, s1 := Scheduling(es, s0, id, mode);
    FinishIgnored(s1, mode, s0.nextPid, id);
    var report := CountFinish(id.address, s0.nextPid);
    Then(es, s1, report);
    Then(es + [report], Next(s1, report), ListFinish);
    es := es + [report] + [ListFinish];
  }

  /**
   * A PM that runs a task fails and registers again before its failure is handled: its counter is zero with a task
   * scheduled on it, until the failure is handled, which puts the task back to pending.
   */
  lemma ReturningPmArises(id: ComponentId) returns (es: seq<Step>)
    ensures EnabledRun(START, es) && Enabled(Run(START, es), HandleFailure)
    ensures var s := Run(START, es);
            s.book.pms[0].inUse && AtRest(s) && !CounterMatches(s, 0) && CounterMatches(Next(s, HandleFailure), 0)
  {
    var s0, s1, s2;
    es, s0 := Registering(id);
    var t := Underway(MODE_NORMAL, s0.nextPid, id);
    es, s1 := Scheduling(es, s0, id, MODE_NORMAL);
    es, s2 := Failing(es, s1, t, Host(id).(tasks := 1));
    var s := Next(s2, Register(id, NO_RESOURCES));
    RegisterLone(s2, t, s2.book.pms[0], id);
    Then(es, s2, Register(id, NO_RESOURCES));
    es := es + [Register(id, NO_RESOURCES)];
    LoneCount(s, t, Host(id), id.address);
    HandledLone(s, t, Host(id));
    LoneCount(Next(s, HandleFailure), t.(state := Pending), Host(id), id.address);
  }

  /**
   * The same with the start counted after the PM has registered again: handling the failure takes the task back but
   * not the count, and the counter stays one too high.
   */
  lemma ReturningPmStaysWrong(id: ComponentId) returns (es: seq<Step>)
    ensures EnabledRun(START, es)
    ensures var s := Run(START, es);
            s.book.pms[0].inUse && s.failing.None? && AtRest(s) && !CounterMatches(s, 0)
  {
    var s0, s1, s2, s3, s5;
    es, s0 := Registering(id);
    es, s1 := Picking(es, s0, Host(id), MODE_NORMAL, 0);
    es, s2 := Sending(es, s1, Job(MODE_NORMAL, 0), Host(id));
    var t := Job(MODE_NORMAL, 0).(pid := s1.nextPid);
    es, s3 := Failing(es, s2, t, Host(id));
    var s4 := Next(s3, Register(id, NO_RESOURCES));
    RegisterLone(s3, t, s3.book.pms[0], id);
    Then(es, s3, Register(id, NO_RESOURCES));
    es := es + [Register(id, NO_RESOURCES)];
    es, s5 := Starting(es, s4, t, Host(id));
    var u := t.(state := Scheduled, pm := Host(id).id);
    HandledLone(s5, u, Host(id).(tasks := 1));
    Then(es, s5, HandleFailure);
    es := es + [HandleFailure];
    LoneCount(Next(s5, HandleFailure), u.(state := Pending), Host(id).(tasks := 1), id.address);
  }

  /**
   * A task with a scheduling interval: the PM is removed, and its failure handled, while the Scheduler sleeps with it
   * in mind. The task ends up scheduled on a PM that is not registered, with no failure left to handle; if the PM
   * then registers again, its counter is zero with a task scheduled on it.
   */
  lemma SleeperArises(id: ComponentId, interval: int) returns (es: seq<Step>)
    requires interval != 0
    ensures EnabledRun(START, es)
    ensures var s := Run(START, es);
            && s.failing.None? && s.phase.Idle? && !BoundToRegistered(s)
            && var r := Next(s, Register(id, NO_RESOURCES));
               r.book.pms[0].inUse && AtRest(r) && !CounterMatches(r, 0)
  {
    var s0, s1, s2, s, gone;
    var t := Job(MODE_NORMAL, interval);
    es, s0, gone := SleepingThrough(id, interval);
    es, s1 := Waking(es, s0, t, gone, Host(id).id);
    es, s2 := Sending(es, s1, t, gone);
    es, s := StartingNowhere(es, s2, t.(pid := s1.nextPid), gone, Host(id).id);
    RegisterLone(s, s.tasks[0], gone, id);
    LoneCount(Next(s, Register(id, NO_RESOURCES)), s.tasks[0], Host(id), id.address);
  }

  /**
   * The list is cleared after a Scheduler that slept has looked for a reset and before it takes the list mutex: the
   * slot it then indexes is inactive.
   */
  lemma ThrowArises(id: ComponentId, interval: int) returns (es: seq<Step>)
    requires interval != 0
    ensures EnabledRun(START, es) && Run(START, es).phase.Ready? && Throws(Run(START, es))
  {
    var s0, s1;
    es, s0 := Registering(id);
    es, s1 := Picking(es, s0, Host(id), MODE_NORMAL, interval);
    var s2 := Next(s1, Sleep);
    var s3 := Next(s2, CheckReset);
    var s4 := Next(s3, ResetList);
    Then(es, s1, Sleep);
    Then(es + [Sleep], s2, CheckReset);
    Then(es + [Sleep] + [CheckReset], s3, ResetList);
    Then(es + [Sleep] + [CheckReset] + [ResetList], s4, Resume);
    es := es + [Sleep] + [CheckReset] + [ResetList] + [Resume];
  }
}
